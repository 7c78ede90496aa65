/** The land gate: whether a branch's review records let a head land
    (crates/jkb-api/src/review_gate.rs, and `review_findings` in crates/jkb-api/src/sessions.rs). */
module LandGate {
  import opened Wrappers

  const MAX_REVIEW_NAMESPACES: nat := 64
  const MAX_LISTED_FINDINGS: nat := 100

  type Item = int
  type Task = int

  /** One task's review record. */
  datatype ReviewState = ReviewState(
    reviewed: Option<string>, namespaces: seq<string>, waived: Option<string>)

  datatype Round = Round(ns: string, filed: int, mustFix: nat)

  /** What one `task.review_findings` answers. */
  datatype Findings = Findings(
    total: nat, openCount: nat, openMustFix: seq<Item>, rounds: seq<Round>, roundsReported: bool)

  const NO_FINDINGS := Findings(0, 0, [], [], true)

  datatype Meta = Meta(terminal: bool, priority: Option<int>)

  /** A recorded round: its row id, and the findings it held as must-fix when it was recorded. */
  datatype RoundRow = RoundRow(filed: int, mustFix: set<Item>)

  /** The tables a review is read from: the tasks under each namespace, the recorded rounds by
      namespace, and each item's status and priority. */
  datatype Ledger = Ledger(
    placed: map<string, set<Item>>, recorded: map<string, RoundRow>, metas: map<Item, Meta>)

  datatype Verdict =
    | Passed
    | NeverReviewed
    | NoFindingsRecorded(namespaces: seq<string>)
    | OpenFindings(count: nat, first: seq<Item>)
    | LastRoundNotClean(ns: string, mustFix: nat)
    | RoundsUnknown
    | StaleHead(reviewed: string, head: Option<string>)

  datatype GateError = TooManyNamespaces

  /** Row ids are primary keys, so no two rounds share one. */
  ghost predicate DistinctRounds(l: Ledger) {
    forall m, n :: m in l.recorded && n in l.recorded && m != n ==> l.recorded[m].filed != l.recorded[n].filed
  }

  ghost predicate NoDup<T(!new)>(s: seq<T>) {
    forall i, j :: 0 <= i < j < |s| ==> s[i] != s[j]
  }

  // ---------------------------------------------------------------------------------------
  // What the tables say about a set of namespaces
  // ---------------------------------------------------------------------------------------

  function Placed(l: Ledger, nss: set<string>): set<Item> {
    set n, i | n in nss && n in l.placed && i in l.placed[n] :: i
  }

  function Snapshot(l: Ledger, nss: set<string>): set<Item> {
    set n, i | n in nss && n in l.recorded && i in l.recorded[n].mustFix :: i
  }

  function Unrecorded(l: Ledger, nss: set<string>): set<string> {
    set n | n in nss && n !in l.recorded
  }

  /** Every finding under `nss`: live there, or held there when a round was recorded. */
  function Ids(l: Ledger, nss: set<string>): set<Item> {
    Placed(l, nss) + Snapshot(l, nss)
  }

  /** Must-fix and unfinished: by the snapshot under a recorded round, by priority elsewhere. */
  predicate IsOpen(l: Ledger, nss: set<string>, id: Item) {
    && id in l.metas
    && !l.metas[id].terminal
    && (id in Snapshot(l, nss)
        || (id in Placed(l, Unrecorded(l, nss)) && l.metas[id].priority.Some? && l.metas[id].priority.value <= 1))
  }

  function Open(l: Ledger, nss: set<string>): set<Item> {
    set id | id in Ids(l, nss) && IsOpen(l, nss, id)
  }

  /** The newest recorded round among `nss` found no must-fix, if there is one. */
  ghost predicate NewestRoundClean(l: Ledger, nss: set<string>) {
    forall n :: n in nss && n in l.recorded
                && (forall m :: m in nss && m in l.recorded ==> l.recorded[m].filed <= l.recorded[n].filed)
                ==> l.recorded[n].mustFix == {}
  }

  function ToSet<T>(s: seq<T>): set<T> {
    set x | x in s
  }

  // ---------------------------------------------------------------------------------------
  // Rounds, sorted by when they were filed
  // ---------------------------------------------------------------------------------------

  function RoundsOf(l: Ledger, nss: seq<string>): seq<Round> {
    if nss == [] then []
    else
      (if nss[0] in l.recorded then [Round(nss[0], l.recorded[nss[0]].filed, |l.recorded[nss[0]].mustFix|)] else [])
      + RoundsOf(l, nss[1..])
  }

  function InsertByFiled(r: Round, s: seq<Round>): seq<Round> {
    if s == [] || r.filed <= s[0].filed then [r] + s else [s[0]] + InsertByFiled(r, s[1..])
  }

  /** The standard library's stable sort, by `filed`. */
  function SortByFiled(s: seq<Round>): seq<Round> {
    if s == [] then [] else InsertByFiled(s[0], SortByFiled(s[1..]))
  }

  ghost predicate SortedByFiled(s: seq<Round>) {
    forall i, j :: 0 <= i < j < |s| ==> s[i].filed <= s[j].filed
  }

  lemma {:induction false} InsertPermutes(r: Round, s: seq<Round>)
    ensures multiset(InsertByFiled(r, s)) == multiset(s) + multiset{r}
  {
    if s != [] && s[0].filed < r.filed {
      InsertPermutes(r, s[1..]);
      assert s == [s[0]] + s[1..];
    }
  }

  lemma {:induction false} InsertSorts(r: Round, s: seq<Round>)
    requires SortedByFiled(s)
    ensures SortedByFiled(InsertByFiled(r, s))
  {
    if s != [] && s[0].filed < r.filed {
      var rest := InsertByFiled(r, s[1..]);
      InsertSorts(r, s[1..]);
      InsertPermutes(r, s[1..]);
      forall j | 0 <= j < |rest|
        ensures s[0].filed <= rest[j].filed
      {
        assert rest[j] in multiset(rest);
        assert rest[j] == r || rest[j] in s[1..];
      }
    }
  }

  lemma {:induction false} SortSorts(s: seq<Round>)
    ensures SortedByFiled(SortByFiled(s))
    ensures multiset(SortByFiled(s)) == multiset(s)
  {
    if s != [] {
      SortSorts(s[1..]);
      InsertSorts(s[0], SortByFiled(s[1..]));
      InsertPermutes(s[0], SortByFiled(s[1..]));
      assert s == [s[0]] + s[1..];
    }
  }

  /** The last of the sorted rounds is the newest of them. */
  lemma SortedLastIsNewest(s: seq<Round>)
    ensures |SortByFiled(s)| == |s|
    ensures s != [] ==>
              var last := SortByFiled(s)[|s| - 1];
              last in s && forall r :: r in s ==> r.filed <= last.filed
  {
    SortSorts(s);
    var t := SortByFiled(s);
    assert |multiset(t)| == |multiset(s)|;
    if s != [] {
      assert t[|t| - 1] in multiset(s);
      forall r | r in s ensures r.filed <= t[|t| - 1].filed {
        assert r in multiset(t);
        var i :| 0 <= i < |t| && t[i] == r;
      }
    }
  }

  lemma {:induction false} RoundsOfMembers(l: Ledger, nss: seq<string>)
    ensures forall r :: r in RoundsOf(l, nss) <==>
              r.ns in nss && r.ns in l.recorded && r == Round(r.ns, l.recorded[r.ns].filed, |l.recorded[r.ns].mustFix|)
  {
    if nss != [] {
      RoundsOfMembers(l, nss[1..]);
      assert nss == [nss[0]] + nss[1..];
    }
  }

  // ---------------------------------------------------------------------------------------
  // Reading findings
  // ---------------------------------------------------------------------------------------

  /** `f` is what the tables answer for `nss`; only the listing's order and cut are left open. */
  ghost predicate Answers(l: Ledger, nss: seq<string>, f: Findings) {
    && f.total == |Ids(l, ToSet(nss))|
    && f.openCount == |Open(l, ToSet(nss))|
    && f.rounds == SortByFiled(RoundsOf(l, nss))
    && f.roundsReported
    && NoDup(f.openMustFix) && ToSet(f.openMustFix) <= Open(l, ToSet(nss))
    && |f.openMustFix| == (if f.openCount < MAX_LISTED_FINDINGS then f.openCount else MAX_LISTED_FINDINGS)
  }

  method ReviewFindings(l: Ledger, nss: seq<string>) returns (r: Result<Findings, GateError>)
    ensures r.Ok? <==> |nss| <= MAX_REVIEW_NAMESPACES
    ensures r.Ok? ==> Answers(l, nss, r.value)
  {
    if |nss| > MAX_REVIEW_NAMESPACES {
      return Err(TooManyNamespaces);
    }
    if nss == [] {
      NoNamespaces(l);
      return Ok(NO_FINDINGS);
    }
    hide Ids, Open, IsOpen, SortByFiled, RoundsOf, NoDup;
    var names := ToSet(nss);
    var ids := Ids(l, names);
    var open := (id: Item) => IsOpen(l, names, id);
    var count, listed := Tally(ids, open);
    KeptIsOpen(l, names, open);
    return Ok(Findings(|ids|, count, listed, SortByFiled(RoundsOf(l, nss)), true));
  }

  lemma NoNamespaces(l: Ledger)
    ensures Answers(l, [], NO_FINDINGS)
  {
    assert Ids(l, ToSet([])) == {};
    assert Open(l, ToSet([])) == {};
  }

  lemma KeptIsOpen(l: Ledger, names: set<string>, open: Item -> bool)
    requires forall id :: open(id) == IsOpen(l, names, id)
    ensures Kept(Ids(l, names), open) == Open(l, names)
  {
  }

  ghost function Kept<T>(ids: set<T>, open: T -> bool): set<T> {
    set id | id in ids && open(id)
  }

  /** Visit `ids` in any order, counting those `open` and listing the first of them. */
  method Tally<T(==, !new)>(ids: set<T>, open: T -> bool) returns (count: nat, listed: seq<T>)
    ensures count == |Kept(ids, open)|
    ensures NoDup(listed) && ToSet(listed) <= Kept(ids, open)
    ensures |listed| == if count < MAX_LISTED_FINDINGS then count else MAX_LISTED_FINDINGS
  {
    hide NoDup, ToSet, Kept;
    ghost var all := Kept(ids, open);
    count, listed := 0, [];
    var rest := ids;
    NothingListed<T>();
    KeptInside(ids, open);
    assert all - rest == {};
    while rest != {}
      invariant rest <= ids
      invariant count == |all - rest|
      invariant NoDup(listed) && ToSet(listed) <= all - rest
      invariant |listed| == if count < MAX_LISTED_FINDINGS then count else MAX_LISTED_FINDINGS
      decreases rest
    {
      var id :| id in rest;
      KeptOneMore(ids, open, rest, id);
      if open(id) {
        count := count + 1;
        if |listed| < MAX_LISTED_FINDINGS {
          OneMoreListed(listed, id);
          listed := listed + [id];
        }
      }
      rest := rest - {id};
    }
    assert all - rest == all;
  }

  lemma NothingListed<T(!new)>()
    ensures NoDup<T>([]) && ToSet<T>([]) == {}
  {
  }

  lemma OneMoreListed<T(!new)>(listed: seq<T>, id: T)
    requires NoDup(listed) && id !in ToSet(listed)
    ensures NoDup(listed + [id]) && ToSet(listed + [id]) == ToSet(listed) + {id}
  {
    assert forall i :: 0 <= i < |listed| ==> listed[i] in ToSet(listed);
  }

  lemma KeptInside<T>(ids: set<T>, open: T -> bool)
    ensures Kept(ids, open) <= ids
  {
  }

  lemma KeptOneMore<T>(ids: set<T>, open: T -> bool, rest: set<T>, id: T)
    requires rest <= ids && id in rest
    ensures var all := Kept(ids, open);
            && id !in all - rest
            && all - (rest - {id}) == if open(id) then (all - rest) + {id} else all - rest
  {
  }

  // ---------------------------------------------------------------------------------------
  // Adding chunks up
  // ---------------------------------------------------------------------------------------

  function SumTotals(parts: seq<Findings>): nat {
    if parts == [] then 0 else parts[0].total + SumTotals(parts[1..])
  }

  function SumOpen(parts: seq<Findings>): nat {
    if parts == [] then 0 else parts[0].openCount + SumOpen(parts[1..])
  }

  function AllRounds(parts: seq<Findings>): seq<Round> {
    if parts == [] then [] else parts[0].rounds + AllRounds(parts[1..])
  }

  /** What [`Merge`] computes from `parts`. */
  ghost predicate Merged(parts: seq<Findings>, out: Findings) {
    && out.total == SumTotals(parts)
    && out.openCount == SumOpen(parts)
    && out.roundsReported == (forall p :: p in parts ==> p.roundsReported)
    && out.rounds == SortByFiled(AllRounds(parts))
    && NoDup(out.openMustFix)
    && (forall id :: id in out.openMustFix <==> exists p :: p in parts && id in p.openMustFix)
  }

  method Merge(parts: seq<Findings>) returns (out: Findings)
    ensures Merged(parts, out)
  {
    out := NO_FINDINGS;
    var i := 0;
    while i < |parts|
      invariant i <= |parts|
      invariant out.total + SumTotals(parts[i..]) == SumTotals(parts)
      invariant out.openCount + SumOpen(parts[i..]) == SumOpen(parts)
      invariant out.rounds + AllRounds(parts[i..]) == AllRounds(parts)
      invariant out.roundsReported == (forall p :: p in parts[..i] ==> p.roundsReported)
      invariant NoDup(out.openMustFix)
      invariant forall id :: id in out.openMustFix <==> exists p :: p in parts[..i] && id in p.openMustFix
    {
      var part := parts[i];
      assert parts[i..][1..] == parts[i + 1..];
      assert parts[..i + 1] == parts[..i] + [part];
      var open := MergeOpen(out.openMustFix, part.openMustFix);
      out := Findings(
        out.total + part.total, out.openCount + part.openCount, open, out.rounds + part.rounds,
        out.roundsReported && part.roundsReported);
      i := i + 1;
    }
    assert parts[..i] == parts;
    assert out.rounds == AllRounds(parts);
    out := out.(rounds := SortByFiled(out.rounds));
  }

  method MergeOpen(seen: seq<Item>, more: seq<Item>) returns (open: seq<Item>)
    requires NoDup(seen)
    ensures NoDup(open)
    ensures forall id :: id in open <==> id in seen || id in more
  {
    open := seen;
    for i := 0 to |more|
      invariant NoDup(open)
      invariant forall id :: id in open <==> id in seen || id in more[..i]
    {
      assert more[..i + 1] == more[..i] + [more[i]];
      if more[i] !in open {
        open := open + [more[i]];
      }
    }
    assert more[..|more|] == more;
  }

  // ---------------------------------------------------------------------------------------
  // The rule
  // ---------------------------------------------------------------------------------------

  function GateWith(found: Findings, review: ReviewState): Verdict {
    if review.reviewed.None? then NeverReviewed
    else if review.namespaces == [] || found.total == 0 then NoFindingsRecorded(review.namespaces)
    else if found.openCount > 0 then OpenFindings(found.openCount, found.openMustFix)
    else if !found.roundsReported then RoundsUnknown
    else if found.rounds != [] && found.rounds[|found.rounds| - 1].mustFix > 0 then
      LastRoundNotClean(found.rounds[|found.rounds| - 1].ns, found.rounds[|found.rounds| - 1].mustFix)
    else Passed
  }

  function LandingWith(found: Findings, review: ReviewState, head: Option<string>): Verdict {
    if head.Some? && review.waived == head then Passed
    else
      var gate := GateWith(found, review);
      if !gate.Passed? then gate
      else if review.reviewed.None? then NeverReviewed
      else if head == review.reviewed then Passed
      else StaleHead(review.reviewed.value, head)
  }

  /** A verdict with the one thing chunked reading may change taken out: the count and the listing of
      open must-fixes, which a finding filed under two chunks enters twice. */
  function Blur(v: Verdict): Verdict {
    if v.OpenFindings? then OpenFindings(1, []) else v
  }

  // ---------------------------------------------------------------------------------------
  // Chunked reading decides as one reading does
  // ---------------------------------------------------------------------------------------

  function Flatten<T>(chunks: seq<seq<T>>): seq<T> {
    if chunks == [] then [] else chunks[0] + Flatten(chunks[1..])
  }

  ghost predicate EachAnswers(l: Ledger, chunks: seq<seq<string>>, parts: seq<Findings>) {
    && |parts| == |chunks|
    && forall i :: 0 <= i < |chunks| ==> Answers(l, chunks[i], parts[i])
  }

  lemma NoneAnswered(l: Ledger, chunks: seq<seq<string>>)
    ensures EachAnswers(l, chunks[..0], [])
  {
  }

  lemma OneMoreAnswered(l: Ledger, chunks: seq<seq<string>>, i: nat, parts: seq<Findings>, part: Findings)
    requires i < |chunks| && EachAnswers(l, chunks[..i], parts) && Answers(l, chunks[i], part)
    ensures EachAnswers(l, chunks[..i + 1], parts + [part])
  {
    hide Answers;
    forall j | 0 <= j < i
      ensures Answers(l, chunks[..i + 1][j], (parts + [part])[j])
    {
      assert Answers(l, chunks[..i][j], parts[j]);
    }
  }

  lemma {:induction false} UnionOfTwo(l: Ledger, a: seq<string>, b: seq<string>)
    ensures ToSet(a + b) == ToSet(a) + ToSet(b)
    ensures Ids(l, ToSet(a + b)) == Ids(l, ToSet(a)) + Ids(l, ToSet(b))
    ensures Open(l, ToSet(a + b)) == Open(l, ToSet(a)) + Open(l, ToSet(b))
    ensures forall r :: r in RoundsOf(l, a + b) <==> r in RoundsOf(l, a) || r in RoundsOf(l, b)
  {
    var x, y := ToSet(a), ToSet(b);
    assert ToSet(a + b) == x + y;
    assert Snapshot(l, x + y) == Snapshot(l, x) + Snapshot(l, y);
    assert Placed(l, x + y) == Placed(l, x) + Placed(l, y);
    assert Unrecorded(l, x + y) == Unrecorded(l, x) + Unrecorded(l, y);
    assert Placed(l, Unrecorded(l, x + y)) == Placed(l, Unrecorded(l, x)) + Placed(l, Unrecorded(l, y));
    assert Placed(l, Unrecorded(l, x)) <= Placed(l, x);
    assert Placed(l, Unrecorded(l, y)) <= Placed(l, y);
    RoundsOfMembers(l, a);
    RoundsOfMembers(l, b);
    RoundsOfMembers(l, a + b);
  }

  /** An answer's rounds are the rounds recorded under its namespaces. */
  lemma AnswerRounds(l: Ledger, nss: seq<string>, f: Findings)
    requires f.rounds == SortByFiled(RoundsOf(l, nss))
    ensures forall r :: r in f.rounds <==> r in RoundsOf(l, nss)
  {
    SortSorts(RoundsOf(l, nss));
    forall r ensures r in f.rounds <==> r in RoundsOf(l, nss) {
      assert r in f.rounds <==> r in multiset(f.rounds);
      assert r in RoundsOf(l, nss) <==> r in multiset(RoundsOf(l, nss));
    }
  }

  /** Sums over chunks are zero exactly when the union is empty. */
  lemma {:induction false} ChunksCount(l: Ledger, chunks: seq<seq<string>>, parts: seq<Findings>)
    requires EachAnswers(l, chunks, parts)
    ensures SumTotals(parts) == 0 <==> Ids(l, ToSet(Flatten(chunks))) == {}
    ensures SumOpen(parts) == 0 <==> Open(l, ToSet(Flatten(chunks))) == {}
  {
    if chunks == [] {
      assert Ids(l, ToSet<string>([])) == {};
      assert Open(l, ToSet<string>([])) == {};
    } else {
      assert EachAnswers(l, chunks[1..], parts[1..]);
      ChunksCount(l, chunks[1..], parts[1..]);
      UnionOfTwo(l, chunks[0], Flatten(chunks[1..]));
      assert Answers(l, chunks[0], parts[0]);
      EmptyUnion(Ids(l, ToSet(chunks[0])), Ids(l, ToSet(Flatten(chunks[1..]))));
      EmptyUnion(Open(l, ToSet(chunks[0])), Open(l, ToSet(Flatten(chunks[1..]))));
    }
  }

  lemma EmptyUnion<T>(a: set<T>, b: set<T>)
    ensures a + b == {} <==> |a| == 0 && b == {}
  {
    if a + b == {} {
      assert a <= a + b && b <= a + b;
    }
  }

  /** The chunks' rounds are the union's rounds. */
  lemma {:induction false} ChunksRounds(l: Ledger, chunks: seq<seq<string>>, parts: seq<Findings>)
    requires |parts| == |chunks|
    requires forall i :: 0 <= i < |chunks| ==> parts[i].rounds == SortByFiled(RoundsOf(l, chunks[i]))
    ensures forall r :: r in AllRounds(parts) <==> r in RoundsOf(l, Flatten(chunks))
  {
    if chunks != [] {
      ChunksRounds(l, chunks[1..], parts[1..]);
      AnswerRounds(l, chunks[0], parts[0]);
      RoundsOfMembers(l, chunks[0]);
      RoundsOfMembers(l, Flatten(chunks[1..]));
      RoundsOfMembers(l, Flatten(chunks));
    }
  }

  /** Two round lists with the same rounds, no two filed together, end in the same round. */
  lemma SameNewest(l: Ledger, s: seq<Round>, t: seq<Round>, nss: seq<string>)
    requires DistinctRounds(l)
    requires forall r :: r in s <==> r in RoundsOf(l, nss)
    requires forall r :: r in t <==> r in RoundsOf(l, nss)
    ensures |SortByFiled(s)| == |s| && |SortByFiled(t)| == |t|
    ensures s == [] <==> t == []
    ensures s != [] ==> SortByFiled(s)[|s| - 1] == SortByFiled(t)[|t| - 1]
  {
    SortedLastIsNewest(s);
    SortedLastIsNewest(t);
    RoundsOfMembers(l, nss);
    SameEmptiness(s, t);
    if s != [] {
      var a, b := SortByFiled(s)[|s| - 1], SortByFiled(t)[|t| - 1];
      assert a in t && b in s;
      assert a.filed == b.filed;
    }
  }

  lemma SameEmptiness<T>(s: seq<T>, t: seq<T>)
    requires forall x :: x in s <==> x in t
    ensures s == [] <==> t == []
  {
    if s != [] {
      assert s[0] in t;
    }
    if t != [] {
      assert t[0] in s;
    }
  }

  /** Reading a branch's namespaces in chunks and merging decides as reading them all at once: the
      same verdict, up to the count and listing of open must-fixes. */
  lemma ChunkingPreservesVerdict(
    l: Ledger, chunks: seq<seq<string>>, parts: seq<Findings>, merged: Findings, whole: Findings,
    review: ReviewState, head: Option<string>)
    requires DistinctRounds(l)
    requires EachAnswers(l, chunks, parts)
    requires Merged(parts, merged)
    requires Answers(l, Flatten(chunks), whole)
    ensures Blur(GateWith(merged, review)) == Blur(GateWith(whole, review))
    ensures Blur(LandingWith(merged, review, head)) == Blur(LandingWith(whole, review, head))
    ensures LandingWith(merged, review, head).Passed? == LandingWith(whole, review, head).Passed?
  {
    var nss := Flatten(chunks);
    ChunksCount(l, chunks, parts);
    ChunksRounds(l, chunks, parts);
    SameNewest(l, AllRounds(parts), RoundsOf(l, nss), nss);
    assert merged.total == 0 <==> whole.total == 0;
    assert merged.openCount == 0 <==> whole.openCount == 0;
    AgreeingFindings(merged, whole, review, head);
  }

  /** The rule reads only whether the counts are zero, and the newest round. */
  lemma AgreeingFindings(f: Findings, g: Findings, review: ReviewState, head: Option<string>)
    requires f.total == 0 <==> g.total == 0
    requires f.openCount == 0 <==> g.openCount == 0
    requires f.roundsReported == g.roundsReported
    requires f.rounds == [] <==> g.rounds == []
    requires f.rounds != [] ==> f.rounds[|f.rounds| - 1] == g.rounds[|g.rounds| - 1]
    ensures Blur(GateWith(f, review)) == Blur(GateWith(g, review))
    ensures Blur(LandingWith(f, review, head)) == Blur(LandingWith(g, review, head))
    ensures LandingWith(f, review, head).Passed? == LandingWith(g, review, head).Passed?
  {
  }

  /** Chunked counts are never short, so a merged refusal never says fewer findings than there are. */
  lemma {:induction false} MergedCountsCover(l: Ledger, chunks: seq<seq<string>>, parts: seq<Findings>)
    requires EachAnswers(l, chunks, parts)
    ensures SumOpen(parts) >= |Open(l, ToSet(Flatten(chunks)))|
    ensures SumTotals(parts) >= |Ids(l, ToSet(Flatten(chunks)))|
  {
    if chunks == [] {
      assert Ids(l, ToSet<string>([])) == {};
      assert Open(l, ToSet<string>([])) == {};
    } else {
      assert EachAnswers(l, chunks[1..], parts[1..]);
      MergedCountsCover(l, chunks[1..], parts[1..]);
      UnionOfTwo(l, chunks[0], Flatten(chunks[1..]));
      assert Answers(l, chunks[0], parts[0]);
      UnionCard(Open(l, ToSet(chunks[0])), Open(l, ToSet(Flatten(chunks[1..]))));
      UnionCard(Ids(l, ToSet(chunks[0])), Ids(l, ToSet(Flatten(chunks[1..]))));
    }
  }

  lemma UnionCard<T>(a: set<T>, b: set<T>)
    ensures |a + b| <= |a| + |b|
  {
    assert a + b == a + (b - a);
    assert |a + (b - a)| == |a| + |b - a|;
    assert b == (b - a) + (b * a);
    assert |b| == |b - a| + |b * a|;
  }

  // ---------------------------------------------------------------------------------------
  // A branch's record
  // ---------------------------------------------------------------------------------------

  /** `out` is the branch record `states` make for `head`, whatever order they were visited in. */
  ghost predicate BranchRecord(states: set<ReviewState>, head: Option<string>, out: ReviewState) {
    && NoDup(out.namespaces)
    && (forall n :: n in out.namespaces <==> exists s :: s in states && n in s.namespaces)
    && (out.reviewed.None? <==> forall s :: s in states ==> s.reviewed.None?)
    && (out.reviewed.Some? ==> exists s :: s in states && s.reviewed == out.reviewed)
    && (head.Some? ==> (out.reviewed == head <==> exists s :: s in states && s.reviewed == head))
    && (head.Some? ==> (out.waived == head <==> exists s :: s in states && s.waived == head))
    && (out.waived.Some? ==> out.waived == head)
  }

  method BranchState(states: set<ReviewState>, head: Option<string>) returns (out: ReviewState)
    ensures BranchRecord(states, head, out)
  {
    out := ReviewState(None, [], None);
    var rest := states;
    while rest != {}
      invariant rest <= states
      invariant BranchRecord(states - rest, head, out)
      decreases rest
    {
      var s :| s in rest;
      assert states - (rest - {s}) == (states - rest) + {s};
      rest := rest - {s};
      var nss := MergeNames(out.namespaces, s.namespaces);
      var reviewed := if s.reviewed.Some? && (s.reviewed == head || out.reviewed.None?) then s.reviewed
                      else out.reviewed;
      var waived := if head.Some? && s.waived == head then s.waived else out.waived;
      out := ReviewState(reviewed, nss, waived);
    }
    assert states - rest == states;
  }

  method MergeNames(seen: seq<string>, more: seq<string>) returns (names: seq<string>)
    requires NoDup(seen)
    ensures NoDup(names)
    ensures forall n :: n in names <==> n in seen || n in more
  {
    names := seen;
    for i := 0 to |more|
      invariant NoDup(names)
      invariant forall n :: n in names <==> n in seen || n in more[..i]
    {
      assert more[..i + 1] == more[..i] + [more[i]];
      if more[i] !in names {
        names := names + [more[i]];
      }
    }
    assert more[..|more|] == more;
  }

  // ---------------------------------------------------------------------------------------
  // A landing, read from the database
  // ---------------------------------------------------------------------------------------

  /** What a landing is judged from: the tables above, each task's tags and its review record. */
  datatype Db = Db(
    ledger: Ledger, branches: map<Task, set<string>>, repos: map<Task, set<string>>, states: map<Task, ReviewState>)

  /** `task` carries `branch=<branch>`. */
  predicate OnBranch(db: Db, task: Task, branch: string) {
    task in db.branches && branch in db.branches[task]
  }

  predicate SharesRepo(db: Db, a: Task, b: Task) {
    a in db.repos && b in db.repos && db.repos[a] * db.repos[b] != {}
  }

  /** The tasks whose records a landing of `task` from `branch` is judged by: `task` alone when it is not
      on the branch, else every task on the branch in one of its repositories. */
  function Group(db: Db, task: Task, branch: string): set<Task> {
    {task} +
    if OnBranch(db, task, branch)
    then set t | t in db.branches && OnBranch(db, t, branch) && SharesRepo(db, task, t)
    else {}
  }

  function GroupStates(db: Db, task: Task, branch: string): set<ReviewState> {
    set t | t in Group(db, task, branch) && t in db.states :: db.states[t]
  }

  function GroupNamespaces(states: set<ReviewState>): set<string> {
    set s, n | s in states && n in s.namespaces :: n
  }

  /** The rule a landing must meet, said over the records themselves: the head is waived; or some task
      of the group was reviewed at it, its findings exist, none that is must-fix is open in any round,
      and the newest round found none. */
  ghost predicate Approved(l: Ledger, states: set<ReviewState>, head: Option<string>) {
    var nss := GroupNamespaces(states);
    head.Some? &&
    ((exists s :: s in states && s.waived == head)
     || (&& (exists s :: s in states && s.reviewed == head)
         && Ids(l, nss) != {}
         && Open(l, nss) == {}
         && NewestRoundClean(l, nss)))
  }

  /** Any record the branch's tasks add up to passes the gate exactly when [`Approved`] says so, so the
      order they are visited in cannot matter. */
  lemma GatePassesExactlyWhenApproved(
    l: Ledger, states: set<ReviewState>, head: Option<string>, review: ReviewState, found: Findings)
    requires DistinctRounds(l)
    requires BranchRecord(states, head, review)
    requires Answers(l, review.namespaces, found)
    ensures LandingWith(found, review, head).Passed? <==> Approved(l, states, head)
  {
    RecordNamespaces(states, head, review);
    NewestIsLast(l, review.namespaces, found);
    AnswerFacts(l, review.namespaces, found);
    PassedExactly(found, review, head);
  }

  lemma RecordNamespaces(states: set<ReviewState>, head: Option<string>, review: ReviewState)
    requires BranchRecord(states, head, review)
    ensures ToSet(review.namespaces) == GroupNamespaces(states)
  {
  }

  lemma AnswerFacts(l: Ledger, nss: seq<string>, found: Findings)
    requires Answers(l, nss, found)
    ensures found.total != 0 <==> Ids(l, ToSet(nss)) != {}
    ensures found.openCount == 0 <==> Open(l, ToSet(nss)) == {}
    ensures found.total != 0 ==> nss != []
    ensures found.roundsReported
  {
    if nss == [] {
      assert Placed(l, ToSet(nss)) == {} && Snapshot(l, ToSet(nss)) == {};
    }
  }

  lemma PassedExactly(found: Findings, review: ReviewState, head: Option<string>)
    ensures LandingWith(found, review, head).Passed? <==>
            head.Some? && (review.waived == head ||
                           (&& review.reviewed == head && review.namespaces != [] && found.total != 0
                            && found.openCount == 0 && found.roundsReported
                            && !(found.rounds != [] && found.rounds[|found.rounds| - 1].mustFix > 0)))
  {
  }

  lemma NewestIsLast(l: Ledger, nss: seq<string>, found: Findings)
    requires DistinctRounds(l)
    requires Answers(l, nss, found)
    ensures NewestRoundClean(l, ToSet(nss)) <==>
            !(found.rounds != [] && found.rounds[|found.rounds| - 1].mustFix > 0)
  {
    hide SortByFiled, RoundsOf, Ids, Open;
    var rs := RoundsOf(l, nss);
    SortedLastIsNewest(rs);
    RoundsOfMembers(l, nss);
    forall n | n in ToSet(nss) && n in l.recorded ensures rs != [] {
      assert Round(n, l.recorded[n].filed, |l.recorded[n].mustFix|) in rs;
    }
    if rs != [] {
      var last := found.rounds[|found.rounds| - 1];
      assert last in rs && last.ns in ToSet(nss) && last.ns in l.recorded;
      forall m | m in ToSet(nss) && m in l.recorded ensures l.recorded[m].filed <= l.recorded[last.ns].filed {
        assert Round(m, l.recorded[m].filed, |l.recorded[m].mustFix|) in rs;
      }
      forall n | n in ToSet(nss) && n in l.recorded
                 && (forall m :: m in ToSet(nss) && m in l.recorded ==> l.recorded[m].filed <= l.recorded[n].filed)
        ensures n == last.ns
      {
        assert l.recorded[last.ns].filed <= l.recorded[n].filed;
      }
    }
  }

  /** Split `nss` into pieces of at most [`MAX_REVIEW_NAMESPACES`]. */
  function Chunks(nss: seq<string>): (chunks: seq<seq<string>>)
    ensures Flatten(chunks) == nss
    ensures forall c :: c in chunks ==> 0 < |c| <= MAX_REVIEW_NAMESPACES
    decreases |nss|
  {
    if nss == [] then []
    else if |nss| <= MAX_REVIEW_NAMESPACES then
      assert [nss][1..] == [];
      [nss]
    else
      var chunks := [nss[..MAX_REVIEW_NAMESPACES]] + Chunks(nss[MAX_REVIEW_NAMESPACES..]);
      assert chunks[1..] == Chunks(nss[MAX_REVIEW_NAMESPACES..]);
      chunks
  }

  /** The tasks a landing of `task` from `branch` is judged by: `task`, and when it carries the branch every task that
      carries it too and shares a repository with it. */
  method JudgedTasks(db: Db, task: Task, branch: string) returns (tasks: seq<Task>)
    ensures NoDup(tasks)
    ensures forall t :: t in tasks <==>
              t == task
              || (&& task in db.branches && branch in db.branches[task]
                  && t in db.branches && branch in db.branches[t]
                  && task in db.repos && t in db.repos && db.repos[task] * db.repos[t] != {})
  {
    tasks := [task];
    if !(task in db.branches && branch in db.branches[task] && task in db.repos) {
      return;
    }
    var repos := db.repos[task];
    while repos != {}
      invariant repos <= db.repos[task] && NoDup(tasks)
      invariant forall t :: t in tasks <==>
                  t == task
                  || (t in db.branches && branch in db.branches[t] && t in db.repos
                      && (db.repos[task] - repos) * db.repos[t] != {})
      decreases repos
    {
      var repo :| repo in repos;
      var found := set t | t in db.branches && branch in db.branches[t] && t in db.repos && repo in db.repos[t];
      ghost var seen := db.repos[task] - repos;
      forall t | t in db.repos
        ensures (seen + {repo}) * db.repos[t] != {} <==> seen * db.repos[t] != {} || repo in db.repos[t]
      {
        OneMoreRepo(seen, repo, db.repos[t]);
      }
      repos := repos - {repo};
      assert db.repos[task] - repos == seen + {repo};
      tasks := PushNew(tasks, found);
    }
    assert db.repos[task] - repos == db.repos[task];
  }

  /** Append what is not there yet, in any order. */
  method PushNew<T(==, !new)>(seen: seq<T>, found: set<T>) returns (tasks: seq<T>)
    requires NoDup(seen)
    ensures NoDup(tasks) && forall t :: t in tasks <==> t in seen || t in found
  {
    tasks := seen;
    var rest := found;
    while rest != {}
      invariant rest <= found && NoDup(tasks)
      invariant forall t :: t in tasks <==> t in seen || t in found - rest
      decreases rest
    {
      var t :| t in rest;
      rest := rest - {t};
      if t !in tasks {
        tasks := tasks + [t];
      }
    }
  }

  lemma OneMoreRepo(seen: set<string>, repo: string, repos: set<string>)
    ensures (seen + {repo}) * repos != {} <==> seen * repos != {} || repo in repos
  {
    if repo in repos {
      assert repo in (seen + {repo}) * repos;
    } else {
      assert (seen + {repo}) * repos == seen * repos;
    }
  }

  lemma JudgedStates(db: Db, task: Task, branch: string, tasks: seq<Task>)
    requires forall t :: t in tasks <==>
               t == task
               || (&& task in db.branches && branch in db.branches[task]
                   && t in db.branches && branch in db.branches[t]
                   && task in db.repos && t in db.repos && db.repos[task] * db.repos[t] != {})
    ensures (set t | t in tasks && t in db.states :: db.states[t]) == GroupStates(db, task, branch)
  {
    assert forall t :: t in tasks <==> t in Group(db, task, branch);
  }

  lemma RuleOfRounds(l: Ledger, nss: set<string>)
    ensures Ids(l, nss) != {} <==>
            exists n :: n in nss && ((n in l.placed && l.placed[n] != {})
                                     || (n in l.recorded && l.recorded[n].mustFix != {}))
    ensures NewestRoundClean(l, nss) <==>
            forall n :: n in nss && n in l.recorded && l.recorded[n].mustFix != {} ==>
              exists m :: m in nss && m in l.recorded && l.recorded[m].filed > l.recorded[n].filed
  {
    if id :| id in Ids(l, nss) {
    }
    if n :| n in nss && ((n in l.placed && l.placed[n] != {}) || (n in l.recorded && l.recorded[n].mustFix != {})) {
      var items := (if n in l.placed then l.placed[n] else {}) + if n in l.recorded then l.recorded[n].mustFix else {};
      var id := SomeMember(items);
      assert id in Ids(l, nss);
    }
  }

  /** What is open, over the tables: the unfinished must-fixes of the recorded rounds, and the unfinished ones of
      priority 1 or above under namespaces no review recorded. */
  lemma RuleOfOpen(l: Ledger, nss: set<string>)
    ensures Open(l, nss) == {} <==>
            && (forall n, id :: n in nss && n in l.recorded && id in l.recorded[n].mustFix && id in l.metas ==>
                  l.metas[id].terminal)
            && (forall n, id :: n in nss && n !in l.recorded && n in l.placed && id in l.placed[n] && id in l.metas ==>
                  l.metas[id].terminal || l.metas[id].priority.None? || l.metas[id].priority.value > 1)
  {
    if Open(l, nss) == {} {
      forall n, id | n in nss && n in l.recorded && id in l.recorded[n].mustFix && id in l.metas
        ensures l.metas[id].terminal
      {
        assert id in Snapshot(l, nss);
        assert id !in Open(l, nss);
      }
      forall n, id | n in nss && n !in l.recorded && n in l.placed && id in l.placed[n] && id in l.metas
        ensures l.metas[id].terminal || l.metas[id].priority.None? || l.metas[id].priority.value > 1
      {
        assert n in Unrecorded(l, nss);
        assert id in Placed(l, Unrecorded(l, nss)) && id in Placed(l, nss);
        assert id !in Open(l, nss);
      }
    } else {
      var id := SomeMember(Open(l, nss));
      if id in Snapshot(l, nss) {
        var n :| n in nss && n in l.recorded && id in l.recorded[n].mustFix;
      } else {
        var n :| n in Unrecorded(l, nss) && n in l.placed && id in l.placed[n];
      }
    }
  }

  /** Which items are findings, and which of them are open, over the tables. */
  lemma FindingsAre(l: Ledger, nss: set<string>, id: Item)
    ensures id in Ids(l, nss) <==>
            exists n :: n in nss && ((n in l.placed && id in l.placed[n])
                                     || (n in l.recorded && id in l.recorded[n].mustFix))
    ensures id in Open(l, nss) <==>
            && id in l.metas && !l.metas[id].terminal
            && (|| (exists n :: n in nss && n in l.recorded && id in l.recorded[n].mustFix)
                || (&& l.metas[id].priority.Some? && l.metas[id].priority.value <= 1
                    && exists n :: n in nss && n !in l.recorded && n in l.placed && id in l.placed[n]))
  {
    if n :| n in nss && n !in l.recorded && n in l.placed && id in l.placed[n] {
      assert n in Unrecorded(l, nss);
    }
  }

  /** Nothing an implementer can edit closes a recorded must-fix: with every namespace recorded, what is open depends
      only on the rounds and on which items are finished, not on placement or priority. */
  lemma EditsDoNotClose(l: Ledger, l': Ledger, nss: set<string>)
    requires l'.recorded == l.recorded && forall n :: n in nss ==> n in l.recorded
    requires l'.metas.Keys == l.metas.Keys && forall id :: id in l.metas ==>
             l'.metas[id].terminal == l.metas[id].terminal
    ensures Open(l', nss) == Open(l, nss)
  {
    assert Snapshot(l', nss) == Snapshot(l, nss);
    assert Unrecorded(l, nss) == {} == Unrecorded(l', nss);
  }

  /** The rule over the tables themselves: whose records count, what is open under them, and which round is the newest.
      */
  lemma LandingRule(db: Db, task: Task, branch: string, head: Option<string>)
    ensures
      var l := db.ledger;
      var judged := set t | t in {task} + db.branches.Keys
                            && (t == task
                                || (&& task in db.branches && branch in db.branches[task] && branch in db.branches[t]
                                    && task in db.repos && t in db.repos && db.repos[task] * db.repos[t] != {}));
      var nss := set t, n | t in judged && t in db.states && n in db.states[t].namespaces :: n;
      Approved(l, GroupStates(db, task, branch), head) <==>
      && head.Some?
      && (|| (exists t :: t in judged && t in db.states && db.states[t].waived == head)
          || (&& (exists t :: t in judged && t in db.states && db.states[t].reviewed == head)
              && (exists n :: n in nss && ((n in l.placed && l.placed[n] != {})
                                           || (n in l.recorded && l.recorded[n].mustFix != {})))
              && (forall n, id :: n in nss && n in l.recorded && id in l.recorded[n].mustFix && id in l.metas ==>
                    l.metas[id].terminal)
              && (forall n, id ::
                    n in nss && n !in l.recorded && n in l.placed && id in l.placed[n] && id in l.metas ==>
                    l.metas[id].terminal || l.metas[id].priority.None? || l.metas[id].priority.value > 1)
              && (forall n :: n in nss && n in l.recorded && l.recorded[n].mustFix != {} ==>
                    exists m :: m in nss && m in l.recorded && l.recorded[m].filed > l.recorded[n].filed)))
  {
    var l := db.ledger;
    var judged := set t | t in {task} + db.branches.Keys
                          && (t == task
                              || (&& task in db.branches && branch in db.branches[task] && branch in db.branches[t]
                                  && task in db.repos && t in db.repos && db.repos[task] * db.repos[t] != {}));
    var nss := set t, n | t in judged && t in db.states && n in db.states[t].namespaces :: n;
    var states := GroupStates(db, task, branch);
    JudgedIs(db, task, branch, judged);
    NamespacesAre(db, judged, states, nss);
    SomeStateIs(db, judged, states, head);
    hide *;
    ApprovedIs(l, states, head);
    RuleOfRounds(l, nss);
    RuleOfOpen(l, nss);
  }

  lemma ApprovedIs(l: Ledger, states: set<ReviewState>, head: Option<string>)
    ensures var nss := GroupNamespaces(states);
            Approved(l, states, head) <==>
            && head.Some?
            && (|| (exists s :: s in states && s.waived == head)
                || (&& (exists s :: s in states && s.reviewed == head) && Ids(l, nss) != {} && Open(l, nss) == {}
                    && NewestRoundClean(l, nss)))
  {
  }

  lemma JudgedIs(db: Db, task: Task, branch: string, judged: set<Task>)
    requires judged == set t | t in {task} + db.branches.Keys
                               && (t == task
                                   || (&& task in db.branches && branch in db.branches[task] && branch in db.branches[t]
                                       && task in db.repos && t in db.repos && db.repos[task] * db.repos[t] != {}))
    ensures judged == Group(db, task, branch)
    ensures GroupStates(db, task, branch) == set t | t in judged && t in db.states :: db.states[t]
  {
  }

  lemma NamespacesAre(db: Db, judged: set<Task>, states: set<ReviewState>, nss: set<string>)
    requires states == set t | t in judged && t in db.states :: db.states[t]
    requires nss == set t, n | t in judged && t in db.states && n in db.states[t].namespaces :: n
    ensures GroupNamespaces(states) == nss
  {
  }

  lemma SomeStateIs(db: Db, judged: set<Task>, states: set<ReviewState>, head: Option<string>)
    requires states == set t | t in judged && t in db.states :: db.states[t]
    ensures (exists s :: s in states && s.waived == head) <==>
            exists t :: t in judged && t in db.states && db.states[t].waived == head
    ensures (exists s :: s in states && s.reviewed == head) <==>
            exists t :: t in judged && t in db.states && db.states[t].reviewed == head
  {
    if t :| t in judged && t in db.states && db.states[t].waived == head {
      assert db.states[t] in states;
    }
    if t :| t in judged && t in db.states && db.states[t].reviewed == head {
      assert db.states[t] in states;
    }
  }

  /** A task that does not carry the branch is judged on its own record, whatever any other task's record, branches or
      repositories are. */
  lemma OffTheBranchAlone(db: Db, db': Db, task: Task, branch: string, head: Option<string>)
    requires !(task in db.branches && branch in db.branches[task])
    requires !(task in db'.branches && branch in db'.branches[task])
    requires db'.ledger == db.ledger
    requires task in db'.states <==> task in db.states
    requires task in db.states ==> db'.states[task] == db.states[task]
    ensures Approved(db'.ledger, GroupStates(db', task, branch), head)
            <==> Approved(db.ledger, GroupStates(db, task, branch), head)
    ensures GroupStates(db, task, branch) == if task in db.states then {db.states[task]} else {}
  {
    assert GroupStates(db', task, branch) == GroupStates(db, task, branch);
  }

  /** A must-fix open under the record of any task on the branch, in a repository they share, refuses a head nobody
      waived. */
  lemma OneOpenMustFixRefuses(db: Db, task: Task, branch: string, head: Option<string>, t: Task, n: string, id: Item)
    requires task in db.branches && branch in db.branches[task] && t in db.branches && branch in db.branches[t]
    requires task in db.repos && t in db.repos && db.repos[task] * db.repos[t] != {}
    requires t in db.states && n in db.states[t].namespaces
    requires n in db.ledger.recorded && id in db.ledger.recorded[n].mustFix
    requires id in db.ledger.metas && !db.ledger.metas[id].terminal
    requires forall u :: u in db.states ==> db.states[u].waived != head
    ensures !Approved(db.ledger, GroupStates(db, task, branch), head)
  {
    LandingRule(db, task, branch, head);
  }

  /** Which refusal a landing gets: the first of these that holds. */
  lemma VerdictExactly(found: Findings, review: ReviewState, head: Option<string>)
    requires !(head.Some? && review.waived == head)
    ensures var v := LandingWith(found, review, head);
            var unclean := found.rounds != [] && found.rounds[|found.rounds| - 1].mustFix > 0;
            && (review.reviewed.None? ==> v == NeverReviewed)
            && (review.reviewed.Some? ==>
                  && (review.namespaces == [] || found.total == 0 ==> v == NoFindingsRecorded(review.namespaces))
                  && (review.namespaces != [] && found.total != 0 ==>
                        && (found.openCount > 0 ==> v == OpenFindings(found.openCount, found.openMustFix))
                        && (found.openCount == 0 ==>
                              && (!found.roundsReported ==> v == RoundsUnknown)
                              && (found.roundsReported && unclean ==>
                                    v == LastRoundNotClean(found.rounds[|found.rounds| - 1].ns,
                                                           found.rounds[|found.rounds| - 1].mustFix))
                              && (found.roundsReported && !unclean ==>
                                    v == if head == review.reviewed then Passed
                                         else StaleHead(review.reviewed.value, head)))))
  {
  }

  method Landing(db: Db, task: Task, branch: string, head: Option<string>) returns (v: Verdict)
    requires DistinctRounds(db.ledger)
    ensures v.Passed? <==> Approved(db.ledger, GroupStates(db, task, branch), head)
  {
    hide *;
    var tasks := JudgedTasks(db, task, branch);
    var states := set t | t in tasks && t in db.states :: db.states[t];
    JudgedStates(db, task, branch, tasks);
    var review := BranchState(states, head);
    var chunks := Chunks(review.namespaces);
    var parts: seq<Findings> := [];
    NoneAnswered(db.ledger, chunks);
    for i := 0 to |chunks|
      invariant EachAnswers(db.ledger, chunks[..i], parts)
    {
      assert chunks[i] in chunks;
      var part := ReviewFindings(db.ledger, chunks[i]);
      OneMoreAnswered(db.ledger, chunks, i, parts, part.value);
      parts := parts + [part.value];
    }
    assert chunks[..|chunks|] == chunks;
    var merged := Merge(parts);
    v := LandingWith(merged, review, head);
    ChunkedGateDecides(db.ledger, states, head, review, chunks, parts, merged);
  }

  /** A branch's record, read in chunks and merged, passes exactly when the records approve the head. */
  lemma ChunkedGateDecides(
    l: Ledger, states: set<ReviewState>, head: Option<string>, review: ReviewState, chunks: seq<seq<string>>,
    parts: seq<Findings>, merged: Findings)
    requires DistinctRounds(l)
    requires BranchRecord(states, head, review)
    requires Flatten(chunks) == review.namespaces
    requires EachAnswers(l, chunks, parts)
    requires Merged(parts, merged)
    ensures LandingWith(merged, review, head).Passed? <==> Approved(l, states, head)
  {
    var whole := WholeAnswer(l, review.namespaces);
    ChunkingPreservesVerdict(l, chunks, parts, merged, whole, review, head);
    GatePassesExactlyWhenApproved(l, states, head, review, whole);
  }

  ghost function WholeAnswer(l: Ledger, nss: seq<string>): (f: Findings)
    ensures Answers(l, nss, f)
  {
    var names := ToSet(nss);
    Findings(|Ids(l, names)|, |Open(l, names)|, FirstOpen(l, names), SortByFiled(RoundsOf(l, nss)), true)
  }

  /** Some listing of the open must-fixes under `nss`, cut as an answer cuts it. */
  ghost function FirstOpen(l: Ledger, nss: set<string>): (s: seq<Item>)
    ensures NoDup(s) && ToSet(s) <= Open(l, nss)
    ensures |s| == if |Open(l, nss)| < MAX_LISTED_FINDINGS then |Open(l, nss)| else MAX_LISTED_FINDINGS
  {
    var all := Listing(Open(l, nss));
    if |all| < MAX_LISTED_FINDINGS then all else all[..MAX_LISTED_FINDINGS]
  }

  ghost function Listing<T(!new)>(xs: set<T>): (s: seq<T>)
    ensures ToSet(s) == xs && |s| == |xs| && NoDup(s)
  {
    if xs == {} then
      NothingListed<T>();
      []
    else
      var x :| x in xs;
      var rest := Listing(xs - {x});
      OneMoreListed(rest, x);
      rest + [x]
  }
}

/** Notifications and the folding of a batch to its net effect (macos/notifier/main.swift). */
module Notices {
  import opened Wrappers

  type Id = string

  datatype Note = Note(id: Id, title: string, subtitle: string, body: string)

  datatype Action = Post(note: Note) | Withdraw(target: Id)

  /** A queue message as the consumer reads it; no action for a kind it does not handle. */
  datatype Message = Message(seqno: int, action: Option<Action>)

  /** What is on screen. */
  type Screen = map<Id, Note>

  function IdOf(a: Action): Id {
    match a
    case Post(n) => n.id
    case Withdraw(i) => i
  }

  function Apply(s: Screen, a: Action): Screen {
    match a
    case Post(n) => s[n.id := n]
    case Withdraw(i) => s - {i}
  }

  function ApplyAll(s: Screen, actions: seq<Action>): Screen {
    if actions == [] then s else Apply(ApplyAll(s, actions[..|actions| - 1]), actions[|actions| - 1])
  }

  /** Every message's action, in order. */
  function Effects(ms: seq<Message>): seq<Action> {
    if ms == [] then []
    else
      var last := ms[|ms| - 1];
      Effects(ms[..|ms| - 1]) + if last.action.Some? then [last.action.value] else []
  }

  function Shown(s: Screen, id: Id): Option<Note> {
    if id in s then Some(s[id]) else None
  }

  // ---------------------------------------------------------------------------------------
  // The net effect of a batch
  // ---------------------------------------------------------------------------------------

  /** The last action for `id` among `ms`. */
  function LastFor(ms: seq<Message>, id: Id): (r: Option<Action>)
    ensures r.Some? ==> IdOf(r.value) == id
  {
    if ms == [] then None
    else
      var last := ms[|ms| - 1];
      if last.action.Some? && IdOf(last.action.value) == id then last.action else LastFor(ms[..|ms| - 1], id)
  }

  /** The ids `ms` names, in the order they first appear. */
  function FirstIds(ms: seq<Message>): (ids: seq<Id>)
    ensures forall id :: id in ids <==> LastFor(ms, id).Some?
    ensures forall i, j :: 0 <= i < j < |ids| ==> ids[i] != ids[j]
  {
    if ms == [] then []
    else
      var ids := FirstIds(ms[..|ms| - 1]);
      var last := ms[|ms| - 1];
      if last.action.Some? && IdOf(last.action.value) !in ids then ids + [IdOf(last.action.value)] else ids
  }

  /** The last action for each id, in the order the ids first appear. */
  function FoldOf(ms: seq<Message>): (batch: seq<Action>)
    ensures |batch| == |FirstIds(ms)|
    ensures forall i :: 0 <= i < |batch| ==> Some(batch[i]) == LastFor(ms, FirstIds(ms)[i])
  {
    var ids := FirstIds(ms);
    seq(|ids|, i requires 0 <= i < |ids| => LastFor(ms, ids[i]).value)
  }

  method Fold(ms: seq<Message>) returns (batch: seq<Action>)
    ensures batch == FoldOf(ms)
  {
    var order: seq<Id> := [];
    var last: map<Id, Action> := map[];
    for i := 0 to |ms|
      invariant order == FirstIds(ms[..i])
      invariant forall id :: id in last <==> id in order
      invariant forall id :: id in last ==> Some(last[id]) == LastFor(ms[..i], id)
    {
      assert ms[..i + 1][..i] == ms[..i];
      if ms[i].action.Some? {
        var a := ms[i].action.value;
        if IdOf(a) !in last {
          order := order + [IdOf(a)];
        }
        last := last[IdOf(a) := a];
      }
    }
    assert ms[..|ms|] == ms;
    batch := seq(|order|, i requires 0 <= i < |order| => last[order[i]]);
  }

  /** What one action leaves on screen for its id. */
  function After(a: Action): Option<Note> {
    if a.Post? then Some(a.note) else None
  }

  lemma ApplyShows(s: Screen, a: Action, id: Id)
    ensures Shown(Apply(s, a), id) == if IdOf(a) == id then After(a) else Shown(s, id)
  {
  }

  lemma ApplyAllStep(s: Screen, actions: seq<Action>, a: Action)
    ensures ApplyAll(s, actions + [a]) == Apply(ApplyAll(s, actions), a)
  {
    assert (actions + [a])[..|actions|] == actions;
  }

  /** Applying every message once in order shows, for each id, what its last action says. */
  lemma {:induction false} LastActionDecides(s: Screen, ms: seq<Message>, id: Id)
    ensures Shown(ApplyAll(s, Effects(ms)), id)
            == if LastFor(ms, id).Some? then After(LastFor(ms, id).value) else Shown(s, id)
  {
    if ms != [] {
      var before, last := ms[..|ms| - 1], ms[|ms| - 1];
      LastActionDecides(s, before, id);
      if last.action.Some? {
        ApplyAllStep(s, Effects(before), last.action.value);
        ApplyShows(ApplyAll(s, Effects(before)), last.action.value, id);
      } else {
        assert Effects(ms) == Effects(before);
      }
    }
  }

  /** Applying actions on distinct ids, in any order, shows each one's own effect. */
  lemma {:induction false} DistinctActionsDecide(s: Screen, batch: seq<Action>, id: Id)
    requires forall i, j :: 0 <= i < j < |batch| ==> IdOf(batch[i]) != IdOf(batch[j])
    ensures forall i :: 0 <= i < |batch| && IdOf(batch[i]) == id ==> Shown(ApplyAll(s, batch), id) == After(batch[i])
    ensures (forall i :: 0 <= i < |batch| ==> IdOf(batch[i]) != id) ==> Shown(ApplyAll(s, batch), id) == Shown(s, id)
  {
    if batch != [] {
      DistinctActionsDecide(s, batch[..|batch| - 1], id);
    }
  }

  /** Folding preserves meaning: from any screen, the folded batch leaves what every message applied once in
      order leaves. */
  lemma FoldPreservesMeaning(s: Screen, ms: seq<Message>)
    ensures ApplyAll(s, FoldOf(ms)) == ApplyAll(s, Effects(ms))
  {
    var folded, full := ApplyAll(s, FoldOf(ms)), ApplyAll(s, Effects(ms));
    forall id ensures Shown(folded, id) == Shown(full, id) {
      FoldShows(s, ms, id);
      LastActionDecides(s, ms, id);
    }
    SameShown(folded, full);
  }

  lemma FoldShows(s: Screen, ms: seq<Message>, id: Id)
    ensures Shown(ApplyAll(s, FoldOf(ms)), id)
            == if LastFor(ms, id).Some? then After(LastFor(ms, id).value) else Shown(s, id)
  {
    var ids, batch := FirstIds(ms), FoldOf(ms);
    assert forall i :: 0 <= i < |batch| ==> IdOf(batch[i]) == ids[i];
    DistinctActionsDecide(s, batch, id);
    if LastFor(ms, id).Some? {
      assert id in ids;
      var i :| 0 <= i < |ids| && ids[i] == id;
      assert IdOf(batch[i]) == id;
    }
  }

  lemma SameShown(s: Screen, t: Screen)
    requires forall id :: Shown(s, id) == Shown(t, id)
    ensures s == t
  {
    forall id ensures id in s <==> id in t {
      assert Shown(s, id) == Shown(t, id);
    }
    forall id | id in s ensures s[id] == t[id] {
      assert Shown(s, id) == Shown(t, id);
    }
  }

  /** The last action of a concatenation. */
  lemma {:induction false} LastForConcat(a: seq<Message>, b: seq<Message>, id: Id)
    ensures LastFor(a + b, id) == if LastFor(b, id).Some? then LastFor(b, id) else LastFor(a, id)
  {
    if b == [] {
      assert a + b == a;
    } else {
      assert (a + b)[..|a + b| - 1] == a + b[..|b| - 1];
      LastForConcat(a, b[..|b| - 1], id);
    }
  }

  /** What the two actions do: one shows its note, one hides its id, neither touches another id. */
  lemma ActionsDoWhatTheySay(s: Screen, note: Note, id: Id, other: Id)
    ensures Shown(Apply(s, Post(note)), note.id) == Some(note)
    ensures Shown(Apply(s, Withdraw(id)), id) == None
    ensures other != note.id ==> Shown(Apply(s, Post(note)), other) == Shown(s, other)
    ensures other != id ==> Shown(Apply(s, Withdraw(id)), other) == Shown(s, other)
  {
  }

  /** Message `i` has an action for `id`, and no earlier one does. */
  predicate FirstAt(ms: seq<Message>, i: nat, id: Id) {
    && i < |ms| && ms[i].action.Some? && IdOf(ms[i].action.value) == id
    && forall j :: 0 <= j < i && ms[j].action.Some? ==> IdOf(ms[j].action.value) != id
  }

  /** A batch is in the order its ids were first named. */
  lemma {:induction false} BatchInFirstOrder(ms: seq<Message>, x: nat, y: nat, i: nat, j: nat)
    requires x < |FoldOf(ms)| && y < |FoldOf(ms)|
    requires FirstAt(ms, i, IdOf(FoldOf(ms)[x])) && FirstAt(ms, j, IdOf(FoldOf(ms)[y]))
    ensures x < y <==> i < j
  {
    assert IdOf(FoldOf(ms)[x]) == FirstIds(ms)[x] && IdOf(FoldOf(ms)[y]) == FirstIds(ms)[y];
    IdsInFirstOrder(ms, x, y, i, j);
  }

  lemma {:induction false} IdsInFirstOrder(ms: seq<Message>, x: nat, y: nat, i: nat, j: nat)
    requires x < |FirstIds(ms)| && y < |FirstIds(ms)|
    requires FirstAt(ms, i, FirstIds(ms)[x]) && FirstAt(ms, j, FirstIds(ms)[y])
    ensures x < y <==> i < j
  {
    var before := ms[..|ms| - 1];
    var ids := FirstIds(before);
    if i < |before| {
      NamedBefore(ms, x, i);
    }
    if j < |before| {
      NamedBefore(ms, y, j);
    }
    if i < |before| && j < |before| {
      assert FirstAt(before, i, ids[x]) && FirstAt(before, j, ids[y]);
      IdsInFirstOrder(before, x, y, i, j);
    } else if i < |before| {
      NamedLast(ms, y, j);
    } else if j < |before| {
      NamedLast(ms, x, i);
    } else {
      assert FirstIds(ms)[x] == FirstIds(ms)[y];
    }
  }

  lemma NamedBefore(ms: seq<Message>, x: nat, i: nat)
    requires x < |FirstIds(ms)| && FirstAt(ms, i, FirstIds(ms)[x]) && i < |ms| - 1
    ensures x < |FirstIds(ms[..|ms| - 1])| && FirstIds(ms[..|ms| - 1])[x] == FirstIds(ms)[x]
  {
    var before := ms[..|ms| - 1];
    var id := FirstIds(ms)[x];
    NamedSome(before, i, id);
    var z :| 0 <= z < |FirstIds(before)| && FirstIds(before)[z] == id;
    assert FirstIds(ms)[z] == id;
  }

  lemma {:induction false} NamedSome(ms: seq<Message>, i: nat, id: Id)
    requires i < |ms| && ms[i].action.Some? && IdOf(ms[i].action.value) == id
    ensures LastFor(ms, id).Some?
  {
    if i < |ms| - 1 {
      NamedSome(ms[..|ms| - 1], i, id);
    }
  }

  lemma NamedLast(ms: seq<Message>, x: nat, i: nat)
    requires x < |FirstIds(ms)| && FirstAt(ms, i, FirstIds(ms)[x]) && i == |ms| - 1
    ensures x == |FirstIds(ms[..|ms| - 1])|
  {
    var before := ms[..|ms| - 1];
    if x < |FirstIds(before)| {
      NamedSomewhere(before, FirstIds(ms)[x]);
    }
  }

  lemma {:induction false} NamedSomewhere(ms: seq<Message>, id: Id)
    requires LastFor(ms, id).Some?
    ensures exists k :: 0 <= k < |ms| && ms[k].action.Some? && IdOf(ms[k].action.value) == id
  {
    var last := |ms| - 1;
    if !(ms[last].action.Some? && IdOf(ms[last].action.value) == id) {
      NamedSomewhere(ms[..last], id);
      var k :| 0 <= k < last && ms[..last][k].action.Some? && IdOf(ms[..last][k].action.value) == id;
      assert ms[k] == ms[..last][k];
    }
  }
}

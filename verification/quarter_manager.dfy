/** The quarter list editor of the roadmap admin view: renaming (and
    re-keying) a quarter, adding one at the end, and deleting one after
    confirmation. Every change hands the whole new quarter list to the page
    (`onUpdateQuarters`). */
module QuarterManager {
  import opened Wrappers
  import JsText
  import opened RoadmapTasks

  /** `editingQuarter` with `editForm`: no quarter is being edited, or the
      quarter keyed `target` is, with the name and id typed so far. */
  datatype Editor = Idle | EditingQuarter(target: string, name: string, id: string)

  /** The editor after a handler, and the quarter list handed to the page,
      if any. */
  datatype Action = Action(editor: Editor, update: Option<seq<Quarter>>)

  /** `handleEditQuarter(quarter)`: the form starts from the quarter's own
      name and id. */
  function Edit(q: Quarter): (e: Editor)
    ensures e.EditingQuarter? && e.target == q.id && e.name == q.name && e.id == q.id
  {
    EditingQuarter(q.id, q.name, q.id)
  }

  /** Every quarter keyed `target` gets the new name and id; its tasks and
      every other quarter are kept. */
  function Rename(qs: seq<Quarter>, target: string, name: string, id: string): (r: seq<Quarter>)
    ensures |r| == |qs|
    ensures forall i :: 0 <= i < |qs| ==>
      r[i] == if qs[i].id == target then Quarter(id, name, qs[i].tasks) else qs[i]
  {
    seq(|qs|, i requires 0 <= i < |qs| => if qs[i].id == target then Quarter(id, name, qs[i].tasks) else qs[i])
  }

  /** `handleSaveQuarter`: with a truthy target the renamed list goes to the
      page and the form closes; with no target, or the empty id as target,
      nothing happens at all. */
  function Save(qs: seq<Quarter>, e: Editor): (r: Action)
    ensures e.EditingQuarter? && e.target != "" ==>
      r == Action(Idle, Some(Rename(qs, e.target, e.name, e.id)))
    ensures !(e.EditingQuarter? && e.target != "") ==> r == Action(e, None)
  {
    if e.EditingQuarter? && e.target != "" then Action(Idle, Some(Rename(qs, e.target, e.name, e.id)))
    else Action(e, None)
  }

  /** `handleCancelEdit`: the form closes and the list is not touched. */
  function Cancel(e: Editor): (r: Action)
    ensures r == Action(Idle, None)
  {
    Action(Idle, None)
  }

  /** The quarter `handleAddQuarter` appends to a list of `n` quarters:
      keyed "q<n+1>-2026", named "Q<n+1> 2026", with no tasks. */
  function NewQuarter(n: nat): (q: Quarter)
    ensures q.tasks == []
    ensures |q.id| > 6 && q.id[0] == 'q' && q.id[|q.id| - 5..] == "-2026"
    ensures JsText.ParseInt(q.id[1..|q.id| - 5]) == Some(n + 1)
    ensures |q.name| > 5 && q.name[0] == 'Q' && q.name[|q.name| - 5..] == " 2026"
    ensures JsText.ParseInt(q.name[1..|q.name| - 5]) == Some(n + 1)
  {
    var k := JsText.NatToString(n + 1);
    JsText.ParseIntOfIntToString(n + 1);
    assert JsText.IntToString(n + 1) == k;
    var q := Quarter("q" + k + "-2026", "Q" + k + " 2026", []);
    assert q.id[1..|q.id| - 5] == k;
    assert q.name[1..|q.name| - 5] == k;
    q
  }

  /** `handleAddQuarter`: the new quarter goes at the end; the editor is
      left as it was. */
  function Add(qs: seq<Quarter>, e: Editor): (r: Action)
    ensures r.editor == e && r.update.Some?
    ensures r.update.value == qs + [NewQuarter(|qs|)]
  {
    Action(e, Some(qs + [NewQuarter(|qs|)]))
  }

  /** The quarters not keyed `id`, in order. */
  function RemoveQuarters(qs: seq<Quarter>, id: string): (r: seq<Quarter>)
    ensures |r| <= |qs|
    ensures forall i :: 0 <= i < |r| ==> r[i].id != id
    ensures forall q :: q in r <==> q in qs && q.id != id
  {
    if |qs| == 0 then []
    else if qs[0].id == id then RemoveQuarters(qs[1..], id)
    else [qs[0]] + RemoveQuarters(qs[1..], id)
  }

  /** `handleDeleteQuarter(quarterId)`: after confirmation every quarter with
      that key goes, tasks and all; without it nothing happens. */
  function Delete(qs: seq<Quarter>, e: Editor, quarterId: string, confirmed: bool): (r: Action)
    ensures r.editor == e
    ensures !confirmed ==> r.update.None?
    ensures confirmed ==> r.update == Some(RemoveQuarters(qs, quarterId))
  {
    Action(e, if confirmed then Some(RemoveQuarters(qs, quarterId)) else None)
  }

  lemma {:induction false} RemoveQuartersConcat(a: seq<Quarter>, b: seq<Quarter>, id: string)
    ensures RemoveQuarters(a + b, id) == RemoveQuarters(a, id) + RemoveQuarters(b, id)
  {
    if |a| > 0 {
      assert (a + b)[0] == a[0];
      assert (a + b)[1..] == a[1..] + b;
      RemoveQuartersConcat(a[1..], b, id);
      if a[0].id != id {
        assert [a[0]] + (RemoveQuarters(a[1..], id) + RemoveQuarters(b, id))
            == ([a[0]] + RemoveQuarters(a[1..], id)) + RemoveQuarters(b, id);
      }
    } else {
      assert a + b == b;
    }
  }

  lemma {:induction false} RemoveQuartersNoMatch(qs: seq<Quarter>, id: string)
    requires forall i :: 0 <= i < |qs| ==> qs[i].id != id
    ensures RemoveQuarters(qs, id) == qs
  {
    if |qs| > 0 {
      RemoveQuartersNoMatch(qs[1..], id);
    }
  }

  /** Deleting the quarter just added, by its key, gives the list back, when
      no earlier quarter had that key. */
  lemma {:induction false} DeleteUndoesAdd(qs: seq<Quarter>, e: Editor)
    requires forall i :: 0 <= i < |qs| ==> qs[i].id != NewQuarter(|qs|).id
    ensures Delete(Add(qs, e).update.value, e, NewQuarter(|qs|).id, true).update == Some(qs)
  {
    var id := NewQuarter(|qs|).id;
    RemoveQuartersConcat(qs, [NewQuarter(|qs|)], id);
    RemoveQuartersNoMatch(qs, id);
    assert RemoveQuarters([NewQuarter(|qs|)], id) == [];
    assert qs + [] == qs;
  }

  /** Every quarter sharing the key of quarter `i` also has its name (true
      in particular when keys are unique). */
  predicate KeyNamesAgree(qs: seq<Quarter>, i: nat)
    requires i < |qs|
  {
    forall j :: 0 <= j < |qs| && qs[j].id == qs[i].id ==> qs[j].name == qs[i].name
  }

  /** Opening a quarter and saving the form untouched hands the page the same
      list, for any quarter with a truthy key whose key names no quarter of
      another name. */
  lemma {:induction false} EditThenSaveKeepsQuarters(qs: seq<Quarter>, i: nat)
    requires i < |qs| && qs[i].id != "" && KeyNamesAgree(qs, i)
    ensures Save(qs, Edit(qs[i])).update == Some(qs)
  {
    var r := Rename(qs, qs[i].id, qs[i].name, qs[i].id);
    assert forall j :: 0 <= j < |qs| ==> r[j] == qs[j];
    assert r == qs;
  }

  /** Renaming a quarter to a fresh key and then renaming it back restores
      the list. */
  lemma {:induction false} RenameBack(qs: seq<Quarter>, i: nat, name: string, id: string)
    requires i < |qs| && qs[i].id != "" && id != "" && KeyNamesAgree(qs, i)
    requires forall j :: 0 <= j < |qs| ==> qs[j].id != id
    ensures var renamed := Save(qs, EditingQuarter(qs[i].id, name, id)).update.value;
      Save(renamed, EditingQuarter(id, qs[i].name, qs[i].id)).update == Some(qs)
  {
    var target := qs[i].id;
    var renamed := Rename(qs, target, name, id);
    var back := Rename(renamed, id, qs[i].name, target);
    forall j | 0 <= j < |qs|
      ensures back[j] == qs[j]
    {
    }
    assert back == qs;
  }

  /** Adding reuses the key of the last quarter once an earlier quarter has
      been deleted: the new key counts quarters, so with two quarters the
      second keyed "q2-2026", deleting the first and adding one leaves two
      quarters with that key. */
  lemma {:induction false} AddAfterDeleteCollides(qs: seq<Quarter>, e: Editor)
    requires |qs| == 2 && qs[0].id != qs[1].id && qs[1].id == "q2-2026"
    ensures var added := Add(Delete(qs, e, qs[0].id, true).update.value, e).update.value;
      |added| == 2 && added[0].id == added[1].id == "q2-2026"
  {
    var rest := RemoveQuarters(qs, qs[0].id);
    assert rest == [qs[1]] by {
      assert qs[1..] == [qs[1]];
      RemoveQuartersNoMatch([qs[1]], qs[0].id);
    }
    assert Delete(qs, e, qs[0].id, true).update.value == rest;
    var added := Add(rest, e).update.value;
    assert added == [qs[1]] + [NewQuarter(1)];
    assert added[0] == qs[1] && added[1] == NewQuarter(1);
    NewQuarterTwo();
  }

  lemma {:induction false} NewQuarterTwo()
    ensures NewQuarter(1).id == "q2-2026"
  {
    assert JsText.DecimalDigit(2) == '2';
    assert JsText.NatToString(2) == "2";
    assert ("q" + "2" + "-2026") == "q2-2026";
  }
}

/**
 * The season's form definition as the form builder edits it: a list of fields, each
 * with an id, a label and a type, plus the option list of a multiple-choice field.
 */
module FormSchema {
  import opened Wrappers
  import opened Text
  import opened Seqs

  datatype FieldType = Counter | Checkbox | TextInput | MultiSelect

  datatype Field = Field(id: string, caption: string, kind: FieldType, options: Option<seq<string>>)

  /** The stored `form_definition` JSON: a list of fields, or some other JSON value. */
  datatype StoredDefinition = FieldArray(fields: seq<Field>) | NotArray

  /**
   * The field list a page starts from: no stored template (or a null definition)
   * and a definition that is not an array both give the empty list.
   */
  function LoadedFields(def: Option<StoredDefinition>): (fields: seq<Field>)
    ensures def.Some? && def.value.FieldArray? ==> fields == def.value.fields
    ensures def.None? || def.value.NotArray? ==> fields == []
  {
    match def
    case None => []
    case Some(FieldArray(fs)) => fs
    case Some(NotArray) => []
  }

  /** What the "new field" inputs hold. */
  datatype Draft = Draft(caption: string, kind: FieldType, optionsText: string)

  /** The builder's editable state: the field list and the inputs for the next field. */
  datatype Builder = Builder(fields: seq<Field>, draft: Draft)

  function TrimAll(parts: seq<string>): (r: seq<string>)
    ensures |r| == |parts| && forall i :: 0 <= i < |r| ==> r[i] == Trim(parts[i])
  {
    seq(|parts|, i requires 0 <= i < |parts| => Trim(parts[i]))
  }

  /** `filter(Boolean)` on strings. */
  function NonEmpty(): string -> bool {
    (s: string) => s != ""
  }

  /**
   * The options typed as comma-separated text: the pieces between commas, trimmed,
   * with empty pieces dropped, in the order typed.
   */
  function ParseOptions(text: string): seq<string> {
    Filter(TrimAll(Split(text, ',')), NonEmpty())
  }

  /** An option as the parse leaves it: not empty, no comma, no white space at either end. */
  predicate CleanOption(o: string) {
    o != "" && ',' !in o && !IsSpace(o[0]) && !IsSpace(o[|o| - 1])
  }

  /** A comma-free piece, trimmed, is empty or a clean option. */
  lemma TrimmedPiece(p: string)
    requires ',' !in p
    ensures Trim(p) == "" || CleanOption(Trim(p))
  {
    TrimChars(p);
  }

  /** Every trimmed piece of a split is empty or a clean option. */
  lemma TrimmedPieces(text: string)
    ensures forall i :: 0 <= i < |TrimAll(Split(text, ','))| ==>
      TrimAll(Split(text, ','))[i] == "" || CleanOption(TrimAll(Split(text, ','))[i])
  {
    var parts := Split(text, ',');
    var trimmed := TrimAll(parts);
    forall i | 0 <= i < |trimmed| ensures trimmed[i] == "" || CleanOption(trimmed[i]) {
      TrimmedPiece(parts[i]);
    }
  }

  /** Every parsed option is clean. */
  lemma ParseOptionsClean(text: string)
    ensures forall i :: 0 <= i < |ParseOptions(text)| ==> CleanOption(ParseOptions(text)[i])
  {
    var trimmed := TrimAll(Split(text, ','));
    var opts := ParseOptions(text);
    TrimmedPieces(text);
    FilterMembers(trimmed, NonEmpty());
    forall i | 0 <= i < |opts| ensures CleanOption(opts[i]) {
      var j :| 0 <= j < |trimmed| && trimmed[j] == opts[i];
      assert NonEmpty()(opts[i]);
    }
  }

  /** An empty options input gives no options. */
  lemma ParseOptionsEmpty()
    ensures ParseOptions("") == []
  {
    var parts := Split("", ',');
    assert parts == [""];
    var t := TrimAll(parts);
    assert t == [""] by {
      assert Blank("");
      assert t[0] == Trim("") == "";
    }
    assert Filter(t, NonEmpty()) == [];
  }

  /** Options with no comma and no white space at the ends survive a join and re-parse. */
  lemma ParseOptionsJoin(opts: seq<string>)
    requires forall i :: 0 <= i < |opts| ==> CleanOption(opts[i])
    ensures ParseOptions(Join(opts, ',')) == opts
  {
    if opts == [] {
      assert Join(opts, ',') == "";
      ParseOptionsEmpty();
    } else {
      ParseOptionsJoinNonEmpty(opts);
    }
  }

  lemma ParseOptionsJoinNonEmpty(opts: seq<string>)
    requires opts != [] && forall i :: 0 <= i < |opts| ==> CleanOption(opts[i])
    ensures ParseOptions(Join(opts, ',')) == opts
  {
    SplitJoinClean(opts);
    TrimAllClean(opts);
    FilterClean(opts);
  }

  /** Clean options joined with commas split back into themselves. */
  lemma SplitJoinClean(opts: seq<string>)
    requires opts != [] && forall i :: 0 <= i < |opts| ==> CleanOption(opts[i])
    ensures Split(Join(opts, ','), ',') == opts
  {
    SplitJoin(opts, ',');
  }

  /** Clean options all survive the empty-string filter. */
  lemma FilterClean(opts: seq<string>)
    requires forall i :: 0 <= i < |opts| ==> CleanOption(opts[i])
    ensures Filter(opts, NonEmpty()) == opts
  {
    forall x | x in opts ensures NonEmpty()(x) {
      var i :| 0 <= i < |opts| && opts[i] == x;
    }
    FilterKeepsAll(opts, NonEmpty());
  }

  /** Clean options are their own `trim`. */
  lemma TrimAllClean(opts: seq<string>)
    requires forall i :: 0 <= i < |opts| ==> CleanOption(opts[i])
    ensures TrimAll(opts) == opts
  {
    forall i | 0 <= i < |opts| ensures Trim(opts[i]) == opts[i] {
      TrimNoEdges(opts[i]);
    }
  }

  /**
   * `addField`: a label that is blank once trimmed changes nothing; otherwise one
   * field is appended with the trimmed label, the chosen type, options for a
   * multiple-choice field only, and the id `freshId` (a random UUID in the page), and
   * the label and options inputs are cleared.
   */
  function AddField(b: Builder, freshId: string): (r: Builder)
    ensures Blank(b.draft.caption) ==> r == b
    ensures !Blank(b.draft.caption) ==>
      && |r.fields| == |b.fields| + 1
      && r.fields[..|b.fields|] == b.fields
      && r.fields[|b.fields|] == Field(freshId, Trim(b.draft.caption), b.draft.kind,
           if b.draft.kind == MultiSelect then Some(ParseOptions(b.draft.optionsText)) else None)
      && r.fields[|b.fields|].caption != ""
      && r.draft == Draft("", b.draft.kind, "")
  {
    var caption := Trim(b.draft.caption);
    if caption == "" then b
    else
      var field := Field(freshId, caption, b.draft.kind,
        if b.draft.kind == MultiSelect then Some(ParseOptions(b.draft.optionsText)) else None);
      Builder(b.fields + [field], Draft("", b.draft.kind, ""))
  }

  /** `f.id !== id`. */
  function IdIsNot(id: string): Field -> bool {
    (f: Field) => f.id != id
  }

  /** `removeField`: the fields whose id differs from `id`. */
  function RemoveField(fields: seq<Field>, id: string): (r: seq<Field>)
    ensures forall i :: 0 <= i < |r| ==> r[i].id != id && r[i] in fields
    ensures forall i :: 0 <= i < |fields| && fields[i].id != id ==> fields[i] in r
  {
    FilterMembers(fields, IdIsNot(id));
    Filter(fields, IdIsNot(id))
  }

  /**
   * Removal keeps the remaining fields in their original relative order, and every
   * copy of each of them.
   */
  lemma RemoveFieldKeepsOrder(fields: seq<Field>, id: string)
    ensures SubsequenceOf(RemoveField(fields, id), fields)
    ensures forall f :: Count(RemoveField(fields, id), f) == (if f.id != id then Count(fields, f) else 0)
  {
    FilterIsSubsequence(fields, IdIsNot(id));
    forall f ensures Count(RemoveField(fields, id), f) == (if f.id != id then Count(fields, f) else 0) {
      FilterCount(fields, IdIsNot(id), f);
    }
  }

  /** Removing a field just added (under a fresh id) restores the previous list. */
  lemma RemoveUndoesAdd(b: Builder, freshId: string)
    requires forall i :: 0 <= i < |b.fields| ==> b.fields[i].id != freshId
    ensures RemoveField(AddField(b, freshId).fields, freshId) == b.fields
  {
    var r := AddField(b, freshId);
    FilterKeepsAll(b.fields, IdIsNot(freshId));
    if !Blank(b.draft.caption) {
      assert r.fields == b.fields + [r.fields[|b.fields|]];
      FilterAppend(b.fields, [r.fields[|b.fields|]], IdIsNot(freshId));
      assert Filter([r.fields[|b.fields|]], IdIsNot(freshId)) == [];
      assert b.fields + [] == b.fields;
    }
  }

  /** `findIndex((f) => f.id === id)`, None for -1. */
  function IndexOfId(fields: seq<Field>, id: string): (r: Option<nat>)
    ensures r.None? <==> forall j :: 0 <= j < |fields| ==> fields[j].id != id
    ensures r.Some? ==> r.value < |fields| && fields[r.value].id == id
    ensures r.Some? ==> forall j :: 0 <= j < r.value ==> fields[j].id != id
  {
    if fields == [] then None
    else if fields[0].id == id then Some(0)
    else
      match IndexOfId(fields[1..], id)
      case None => None
      case Some(k) =>
        assert fields[k + 1] == fields[1..][k];
        Some(k + 1)
  }

  datatype Direction = Up | Down

  /** The position a move would swap with, which may be off either end. */
  function Target(i: nat, dir: Direction): int {
    if dir == Up then i - 1 else i + 1
  }

  /**
   * The list after moving the field with id `id` one place in direction `dir`: the
   * field swaps with its neighbour; an unknown id or a move off either end changes
   * nothing.
   */
  function Moved(fields: seq<Field>, id: string, dir: Direction): (r: seq<Field>)
    ensures |r| == |fields|
    ensures IndexOfId(fields, id).None? ==> r == fields
    ensures dir == Up && IndexOfId(fields, id) == Some(0) ==> r == fields
    ensures dir == Down && IndexOfId(fields, id) == Some(|fields| - 1) ==> r == fields
    ensures IndexOfId(fields, id).Some? && 0 <= Target(IndexOfId(fields, id).value, dir) < |fields| ==>
      var i := IndexOfId(fields, id).value;
      var t := Target(i, dir);
      && r[i] == fields[t] && r[t] == fields[i]
      && forall k :: 0 <= k < |r| && k != i && k != t ==> r[k] == fields[k]
  {
    match IndexOfId(fields, id)
    case None => fields
    case Some(i) =>
      var t := Target(i, dir);
      if t < 0 || t >= |fields| then fields
      else
        fields[i := fields[t]][t := fields[i]]
  }

  /** A move only rearranges the fields. */
  lemma MovedPermutes(fields: seq<Field>, id: string, dir: Direction)
    ensures multiset(Moved(fields, id, dir)) == multiset(fields)
  {
    var found := IndexOfId(fields, id);
    if found.Some? {
      var i := found.value;
      var t := Target(i, dir);
      if 0 <= t < |fields| {
        assert Moved(fields, id, dir) == fields[i := fields[t]][t := fields[i]];
        SwapMultiset(fields, i, t);
      }
    }
  }

  lemma SwapMultiset<T>(s: seq<T>, i: nat, j: nat)
    requires i < |s| && j < |s|
    ensures multiset(s[i := s[j]][j := s[i]]) == multiset(s)
  {
    var s1 := s[i := s[j]];
    assert multiset(s1) == multiset(s) - multiset{s[i]} + multiset{s[j]};
    assert multiset(s1[j := s[i]]) == multiset(s1) - multiset{s1[j]} + multiset{s[i]};
  }

  /** `moveField`: the swap done on a copy of the list, as the page does it. */
  method MoveField(prev: seq<Field>, id: string, dir: Direction) returns (next: seq<Field>)
    ensures next == Moved(prev, id, dir)
  {
    var found := IndexOfId(prev, id);
    if found.None? {
      return prev;
    }
    var idx := found.value;
    var target := Target(idx, dir);
    if target < 0 || target >= |prev| {
      return prev;
    }
    var copy := new Field[|prev|](i requires 0 <= i < |prev| => prev[i]);
    var tmp := copy[idx];
    copy[idx] := copy[target];
    copy[target] := tmp;
    next := copy[..];
  }

  /** The first field with id `id` is at `k`. */
  lemma IndexOfIdIs(fields: seq<Field>, id: string, k: nat)
    requires k < |fields| && fields[k].id == id
    requires forall j :: 0 <= j < k ==> fields[j].id != id
    ensures IndexOfId(fields, id) == Some(k)
  {
    var r := IndexOfId(fields, id);
    assert r.Some?;
    assert !(r.value < k) && !(k < r.value);
  }

  /** Moving a field up and then down again restores the list. */
  lemma MoveUpThenDown(fields: seq<Field>, id: string)
    requires IndexOfId(fields, id).Some? && IndexOfId(fields, id).value > 0
    ensures Moved(Moved(fields, id, Up), id, Down) == fields
  {
    var i := IndexOfId(fields, id).value;
    var up := Moved(fields, id, Up);
    assert up[i - 1] == fields[i] && up[i] == fields[i - 1];
    assert IndexOfId(up, id) == Some(i - 1) by {
      assert forall j :: 0 <= j < i - 1 ==> up[j] == fields[j];
      IndexOfIdIs(up, id, i - 1);
    }
    var down := Moved(up, id, Down);
    assert forall k :: 0 <= k < |fields| ==> down[k] == fields[k];
  }
}

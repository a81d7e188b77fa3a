/** What the students, faculty and classes sections have in common: editing a
    list by id with `map` and `filter`, a case-insensitive search over some text
    fields, the CSV grid split into a header and data rows, and the class-name
    column of the exports. */
module Directory {
  import opened Lists
  import opened Text
  import opened Domain
  import opened CsvRows

  /** `list.map(x => x.id === id ? update(x) : x)`. */
  function ReplaceWhere<T>(s: seq<T>, hit: T -> bool, update: T -> T): (r: seq<T>)
    ensures |r| == |s|
    ensures forall i :: 0 <= i < |s| ==> r[i] == if hit(s[i]) then update(s[i]) else s[i]
  {
    Map(s, (x: T) => if hit(x) then update(x) else x)
  }

  /** `list.filter(x => x.id !== id)`. */
  function RemoveWhere<T>(s: seq<T>, hit: T -> bool): seq<T>
  {
    Filter(s, (y: T) => !hit(y))
  }

  /** Removal keeps exactly the elements that are not hit, in their order,
      drops exactly as many elements as are hit, and changes nothing when
      nothing is hit. */
  lemma RemoveWhereRule<T>(s: seq<T>, hit: T -> bool, x: T)
    ensures x in RemoveWhere(s, hit) <==> x in s && !hit(x)
    ensures IsSubsequence(RemoveWhere(s, hit), s)
    ensures |RemoveWhere(s, hit)| == |s| - Count(s, hit)
    ensures (forall i :: 0 <= i < |s| ==> !hit(s[i])) ==> RemoveWhere(s, hit) == s
  {
    var p := (y: T) => !hit(y);
    FilterMembers(s, p, x);
    FilterIsSubsequence(s, p);
    CountComplement(s, hit);
    if forall i :: 0 <= i < |s| ==> !hit(s[i]) {
      FilterKeepsAll(s, p);
    }
  }

  /** A cell JavaScript's `||` keeps: defined and not the empty string. */
  predicate Filled(c: Cell)
  {
    c.Some? && c.value != ""
  }

  /** `parseInt(cell) || 0`: `NaN` (also for an undefined cell) and 0 give 0. */
  function IntOrZero(c: Cell): int
  {
    if c.None? then 0
    else match ParseInt(c.value)
      case None => 0
      case Some(n) => n
  }

  /** `parseFloat(cell) || 0`, with `parseFloat` supplied by the caller
      (`None` is `NaN`). */
  function RealOrZero(parseFloat: string -> Option<real>, c: Cell): real
  {
    if c.None? then 0.0
    else match parseFloat(c.value)
      case None => 0.0
      case Some(v) => v
  }

  /** `field.toLowerCase().includes(term.toLowerCase())`. */
  predicate FieldMatches(field: string, term: string)
  {
    Includes(Lower(field), Lower(term))
  }

  /** The search callback: some field matches. */
  predicate AnyFieldMatches(fields: seq<string>, term: string)
  {
    exists i :: 0 <= i < |fields| && FieldMatches(fields[i], term)
  }

  /** The empty search term matches any record that has a field at all. */
  lemma EmptyTermMatches(fields: seq<string>)
    requires fields != []
    ensures AnyFieldMatches(fields, "")
  {
    IncludesEmpty(Lower(fields[0]));
    assert FieldMatches(fields[0], "");
  }

  /** The search over three fields, written out. */
  lemma ThreeFieldsMatch(a: string, b: string, c: string, term: string)
    ensures AnyFieldMatches([a, b, c], term) <==> FieldMatches(a, term) || FieldMatches(b, term) || FieldMatches(c, term)
  {
    var fs := [a, b, c];
    if FieldMatches(a, term) { assert FieldMatches(fs[0], term); }
    if FieldMatches(b, term) { assert FieldMatches(fs[1], term); }
    if FieldMatches(c, term) { assert FieldMatches(fs[2], term); }
  }

  /** The search over four fields, written out. */
  lemma FourFieldsMatch(a: string, b: string, c: string, d: string, term: string)
    ensures AnyFieldMatches([a, b, c, d], term) <==>
      FieldMatches(a, term) || FieldMatches(b, term) || FieldMatches(c, term) || FieldMatches(d, term)
  {
    var fs := [a, b, c, d];
    if FieldMatches(a, term) { assert FieldMatches(fs[0], term); }
    if FieldMatches(b, term) { assert FieldMatches(fs[1], term); }
    if FieldMatches(c, term) { assert FieldMatches(fs[2], term); }
    if FieldMatches(d, term) { assert FieldMatches(fs[3], term); }
  }

  /** Search is case-insensitive in the term: upper-casing letters of the
      term changes nothing because both sides are lowered first. */
  lemma SearchIgnoresTermCase(fields: seq<string>, term: string)
    ensures AnyFieldMatches(fields, Lower(term)) <==> AnyFieldMatches(fields, term)
  {
    LowerIdempotent(term);
    assert forall f :: FieldMatches(f, Lower(term)) == FieldMatches(f, term);
  }

  /** The grid `Papa.parse` produced: the first row is the header, the rest
      are data rows. An empty grid has no data rows, so nothing is built. */
  function Headers(grid: seq<seq<string>>): seq<string>
  {
    if grid == [] then [] else grid[0]
  }

  function DataRows(grid: seq<seq<string>>): (rows: seq<seq<string>>)
    ensures |rows| == if grid == [] then 0 else |grid| - 1
  {
    if grid == [] then [] else grid[1..]
  }

  /** `CSV${Date.now()}${index}`: one clock reading per row, and the row's
      index among all data rows (taken before nameless rows are dropped). */
  function CsvId(clockAt: nat -> nat, index: nat): string
  {
    "CSV" + NatToString(clockAt(index)) + NatToString(index)
  }

  /** `cell ? cell.split(',') : []`: a set cell is cut at every comma, so the
      pieces hold no comma and join back to the cell. */
  function SplitList(c: Cell): (r: seq<string>)
    ensures Filled(c) ==> Join(r, ",") == c.value
    ensures Filled(c) ==> forall k :: 0 <= k < |r| ==> ',' !in r[k]
    ensures !Filled(c) ==> r == []
  {
    if Filled(c) then
      JoinSplit(c.value, ',');
      SplitPiecesLackSeparator(c.value, ',');
      Split(c.value, ',')
    else []
  }

  /** `classes.find(c => c.id === id)?.name || id`. */
  function ClassLabel(classes: seq<Class>, id: string): string
  {
    var c := Find(classes, (k: Class) => k.id == id);
    OrElse(if c.Some? then Some(c.value.name) else None, id)
  }

  /** `ids.map(id => classLabel(id)).join(', ')`. */
  function ClassLabels(classes: seq<Class>, ids: seq<string>): seq<string>
  {
    Map(ids, (id: string) => ClassLabel(classes, id))
  }

  /** Each id is shown by its class's name, in order; an id no class has, or
      whose first class has an empty name, is shown as the id itself. */
  lemma ClassLabelsRule(classes: seq<Class>, ids: seq<string>, i: nat)
    requires i < |ids|
    ensures |ClassLabels(classes, ids)| == |ids|
    ensures (forall k :: 0 <= k < |classes| ==> classes[k].id != ids[i]) ==> ClassLabels(classes, ids)[i] == ids[i]
    ensures forall k :: 0 <= k < |classes| && classes[k].id == ids[i] && classes[k].name != ""
                        && (forall j :: 0 <= j < k ==> classes[j].id != ids[i])
                        ==> ClassLabels(classes, ids)[i] == classes[k].name
    ensures forall k :: 0 <= k < |classes| && classes[k].id == ids[i] && classes[k].name == ""
                        && (forall j :: 0 <= j < k ==> classes[j].id != ids[i])
                        ==> ClassLabels(classes, ids)[i] == ids[i]
  {
    var p := (c: Class) => c.id == ids[i];
    FindNone(classes, p);
    forall k | 0 <= k < |classes| && classes[k].id == ids[i]
               && (forall j :: 0 <= j < k ==> classes[j].id != ids[i])
      ensures ClassLabels(classes, ids)[i] == OrElse(Some(classes[k].name), ids[i])
    {
      FindFirst(classes, p, k);
    }
  }
}

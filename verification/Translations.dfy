/** Translation keys with dots, and the nested bundles exported from them. */
module Translations {
  import opened Base

  // ----- keys and their segments

  function Split(key: string): (segs: seq<string>)
    ensures |segs| >= 1
    ensures forall i :: 0 <= i < |segs| ==> '.' !in segs[i]
  {
    if key == "" then [""]
    else
      var rest := Split(key[1..]);
      if key[0] == '.' then [""] + rest else [[key[0]] + rest[0]] + rest[1..]
  }

  function Join(segs: seq<string>): string
    requires |segs| >= 1
  {
    if |segs| == 1 then segs[0] else segs[0] + "." + Join(segs[1..])
  }

  lemma {:induction false} JoinSplit(key: string)
    ensures Join(Split(key)) == key
  {
    if key != "" {
      JoinSplit(key[1..]);
      var rest := Split(key[1..]);
      if key[0] == '.' {
        assert Split(key)[1..] == rest;
      } else {
        assert Split(key)[1..] == rest[1..];
      }
    }
  }

  lemma {:induction false} SplitDot(key: string, more: string)
    ensures Split(key + "." + more) == Split(key) + Split(more)
  {
    var whole := key + "." + more;
    if key == "" {
      assert whole[1..] == more;
    } else {
      assert whole[1..] == key[1..] + "." + more;
      SplitDot(key[1..], more);
    }
  }

  lemma {:induction false} SplitPlain(seg: string)
    requires '.' !in seg
    ensures Split(seg) == [seg]
  {
    if seg != "" {
      SplitPlain(seg[1..]);
      assert seg == [seg[0]] + seg[1..];
    }
  }

  lemma {:induction false} SplitJoin(segs: seq<string>)
    requires |segs| >= 1 && forall i :: 0 <= i < |segs| ==> '.' !in segs[i]
    ensures Split(Join(segs)) == segs
  {
    SplitPlain(segs[0]);
    if |segs| > 1 {
      SplitJoin(segs[1..]);
      SplitDot(segs[0], Join(segs[1..]));
    }
  }

  lemma {:induction false} JoinConcat(a: seq<string>, b: seq<string>)
    requires |a| >= 1 && |b| >= 1
    ensures Join(a + b) == Join(a) + "." + Join(b)
  {
    if |a| == 1 {
      assert (a + b)[1..] == b;
    } else {
      assert (a + b)[1..] == a[1..] + b;
      JoinConcat(a[1..], b);
    }
  }

  predicate StartsWith(s: string, prefix: string) {
    prefix <= s
  }

  /** Every proper dotted prefix of a key. */
  function PrefixesOf(key: string): seq<string> {
    var segs := Split(key);
    seq(|segs| - 1, i requires 0 <= i < |segs| - 1 => Join(segs[..i + 1]))
  }

  lemma StartsWithIff(longer: string, key: string)
    ensures StartsWith(longer, key + ".") <==> Split(key) < Split(longer)
  {
    if StartsWith(longer, key + ".") {
      var more := longer[|key| + 1..];
      assert longer == key + "." + more;
      SplitDot(key, more);
    }
    if Split(key) < Split(longer) {
      var more := Split(longer)[|Split(key)|..];
      assert Split(longer) == Split(key) + more;
      JoinConcat(Split(key), more);
      JoinSplit(key);
      JoinSplit(longer);
      assert longer == key + "." + Join(more);
    }
  }

  lemma PrefixIsShorter(key: string, i: nat)
    requires i < |PrefixesOf(key)|
    ensures Split(PrefixesOf(key)[i]) == Split(key)[..i + 1]
  {
    SplitJoin(Split(key)[..i + 1]);
  }

  lemma ShorterIsPrefix(key: string, shorter: string)
    requires Split(shorter) < Split(key)
    ensures |Split(shorter)| - 1 < |PrefixesOf(key)| && PrefixesOf(key)[|Split(shorter)| - 1] == shorter
  {
    JoinSplit(shorter);
    assert Split(key)[..|Split(shorter)|] == Split(shorter);
  }

  lemma PrefixesOfIff(key: string, shorter: string)
    ensures shorter in PrefixesOf(key) <==> Split(shorter) < Split(key)
  {
    if shorter in PrefixesOf(key) {
      var i :| 0 <= i < |PrefixesOf(key)| && PrefixesOf(key)[i] == shorter;
      PrefixIsShorter(key, i);
    }
    if Split(shorter) < Split(key) {
      ShorterIsPrefix(key, shorter);
    }
  }

  // ----- creating rows

  datatype Row = Row(key: string, en: string, bn: string)

  datatype KeyError = ReservedWord | KeyExists | KeyClashes

  const FORBIDDEN_SEGMENTS: set<string> := {"__proto__", "prototype", "constructor"}

  predicate Forbidden(segs: seq<string>) {
    exists i :: 0 <= i < |segs| && segs[i] in FORBIDDEN_SEGMENTS
  }

  predicate HasKey(rows: seq<Row>, key: string) {
    exists i :: 0 <= i < |rows| && rows[i].key == key
  }

  predicate Clash(other: string, key: string) {
    StartsWith(other, key + ".") || other in PrefixesOf(key)
  }

  function CheckCreate(rows: seq<Row>, key: string): Option<KeyError> {
    if Forbidden(Split(key)) then Some(ReservedWord)
    else if HasKey(rows, key) then Some(KeyExists)
    else if exists i :: 0 <= i < |rows| && Clash(rows[i].key, key) then Some(KeyClashes)
    else None
  }

  datatype Step = Create(row: Row) | Update(id: nat, en: Option<string>, bn: Option<string>)

  function Next(rows: seq<Row>, step: Step): seq<Row> {
    match step
    case Create(row) => if CheckCreate(rows, row.key).None? then rows + [row] else rows
    case Update(id, en, bn) =>
      if id >= |rows| then rows
      else rows[id := Row(rows[id].key, if en.Some? then en.value else rows[id].en, if bn.Some? then bn.value
        else rows[id].bn)]
  }

  function RunSteps(rows: seq<Row>, steps: seq<Step>): seq<Row> {
    if steps == [] then rows else Next(RunSteps(rows, steps[..|steps| - 1]), steps[|steps| - 1])
  }

  /** Neither path runs through the other. */
  predicate Apart(p: seq<string>, q: seq<string>) {
    !(p <= q) && !(q <= p)
  }

  lemma ApartIff(p: seq<string>, q: seq<string>)
    ensures Apart(p, q) <==> p != q && !(p < q) && !(q < p)
  {
    if |p| == |q| {
      assert p <= q <==> p == q;
      assert q <= p <==> p == q;
    }
  }

  /** No key is another's, or a group of another's, and none uses a reserved word. */
  ghost predicate KeysApart(rows: seq<Row>) {
    && (forall i, j :: 0 <= i < j < |rows| ==> Apart(Split(rows[i].key), Split(rows[j].key)))
    && (forall i :: 0 <= i < |rows| ==> !Forbidden(Split(rows[i].key)))
  }

  lemma CheckMeansApart(rows: seq<Row>, key: string, i: nat)
    requires i < |rows| && CheckCreate(rows, key).None?
    ensures Apart(Split(rows[i].key), Split(key))
  {
    StartsWithIff(rows[i].key, key);
    PrefixesOfIff(key, rows[i].key);
    JoinSplit(key);
    JoinSplit(rows[i].key);
    ApartIff(Split(rows[i].key), Split(key));
    assert !Clash(rows[i].key, key);
  }

  lemma StepKeepsApart(rows: seq<Row>, step: Step)
    requires KeysApart(rows)
    ensures KeysApart(Next(rows, step))
  {
    if step.Create? && CheckCreate(rows, step.row.key).None? {
      forall i | 0 <= i < |rows|
        ensures Apart(Split(rows[i].key), Split(step.row.key))
      {
        CheckMeansApart(rows, step.row.key, i);
      }
    }
  }

  /** Over every run of creates and updates the keys stay free of dotted prefixes. */
  lemma {:induction false} RunKeepsApart(rows: seq<Row>, steps: seq<Step>)
    requires KeysApart(rows)
    ensures KeysApart(RunSteps(rows, steps))
  {
    if steps != [] {
      RunKeepsApart(rows, steps[..|steps| - 1]);
      StepKeepsApart(RunSteps(rows, steps[..|steps| - 1]), steps[|steps| - 1]);
    }
  }

  // ----- the nested bundle

  datatype Bundle = Text(text: string) | Nested(children: map<string, Bundle>)

  /** Descends along the segments; a text in the way, or anything already there, is left as it is. */
  function SetNested(root: map<string, Bundle>, segs: seq<string>, value: string): map<string, Bundle>
    requires |segs| >= 1
    decreases |segs|
  {
    var seg := segs[0];
    if |segs| == 1 then (if seg in root then root else root[seg := Text(value)])
    else if seg !in root then root[seg := Nested(SetNested(map[], segs[1..], value))]
    else match root[seg]
      case Text(_) => root
      case Nested(children) => root[seg := Nested(SetNested(children, segs[1..], value))]
  }

  function Lookup(root: map<string, Bundle>, segs: seq<string>): Option<string>
    decreases |segs|
  {
    if |segs| == 0 || segs[0] !in root then None
    else match root[segs[0]]
      case Text(text) => if |segs| == 1 then Some(text) else None
      case Nested(children) => Lookup(children, segs[1..])
  }

  /** Nothing is at the path and no text is on the way to it. */
  predicate Writable(root: map<string, Bundle>, segs: seq<string>)
    requires |segs| >= 1
    decreases |segs|
  {
    || segs[0] !in root
    || (|segs| > 1 && root[segs[0]].Nested? && Writable(root[segs[0]].children, segs[1..]))
  }

  lemma {:induction false} SetThenLookup(root: map<string, Bundle>, segs: seq<string>, value: string, path: seq<string>)
    requires |segs| >= 1 && Writable(root, segs)
    ensures Lookup(SetNested(root, segs, value), path) == if path == segs then Some(value) else Lookup(root, path)
    decreases |segs|
  {
    if |segs| > 1 && |path| > 0 && path[0] == segs[0] {
      var below := if segs[0] in root then root[segs[0]].children else map[];
      assert path == segs <==> path[1..] == segs[1..] by {
        assert path == [path[0]] + path[1..] && segs == [segs[0]] + segs[1..];
      }
      SetThenLookup(below, segs[1..], value, path[1..]);
    }
  }

  lemma {:induction false} BlockedIsUnchanged(root: map<string, Bundle>, segs: seq<string>, value: string)
    requires |segs| >= 1 && !Writable(root, segs)
    ensures SetNested(root, segs, value) == root
    decreases |segs|
  {
    if |segs| > 1 && root[segs[0]].Nested? {
      BlockedIsUnchanged(root[segs[0]].children, segs[1..], value);
    }
  }

  /** Every group leads to some text. */
  ghost predicate NoEmptyGroups(root: map<string, Bundle>) {
    forall s | s in root :: Leads(root[s])
  }

  ghost predicate Leads(b: Bundle)
    decreases b
  {
    b.Nested? ==> b.children != map[] && forall s | s in b.children :: Leads(b.children[s])
  }

  lemma {:induction false} SetKeepsGroups(root: map<string, Bundle>, segs: seq<string>, value: string)
    requires |segs| >= 1 && NoEmptyGroups(root)
    ensures NoEmptyGroups(SetNested(root, segs, value)) && SetNested(root, segs, value) != map[]
    decreases |segs|
  {
    assert segs[0] in SetNested(root, segs, value);
    if |segs| > 1 {
      if segs[0] !in root {
        SetKeepsGroups(map[], segs[1..], value);
      } else if root[segs[0]].Nested? {
        assert Leads(root[segs[0]]);
        SetKeepsGroups(root[segs[0]].children, segs[1..], value);
      }
    }
  }

  lemma {:induction false} SomeText(b: Bundle) returns (path: seq<string>)
    requires b.Nested? && Leads(b)
    ensures Lookup(b.children, path).Some?
    decreases b
  {
    var s :| s in b.children;
    assert Leads(b.children[s]);
    if b.children[s].Text? {
      path := [s];
    } else {
      var rest := SomeText(b.children[s]);
      path := [s] + rest;
      assert path[1..] == rest;
    }
  }

  /** What blocks a path is a text on it, at it or below it. */
  lemma {:induction false} BlockedBy(root: map<string, Bundle>, segs: seq<string>) returns (path: seq<string>)
    requires |segs| >= 1 && NoEmptyGroups(root) && !Writable(root, segs)
    ensures Lookup(root, path).Some? && !Apart(path, segs)
    decreases |segs|
  {
    var seg := segs[0];
    assert Leads(root[seg]);
    if root[seg].Text? {
      path := [seg];
    } else {
      var rest;
      if |segs| == 1 {
        rest := SomeText(root[seg]);
      } else {
        rest := BlockedBy(root[seg].children, segs[1..]);
      }
      path := [seg] + rest;
      assert path[1..] == rest;
      assert segs == [seg] + segs[1..];
    }
  }

  // ----- the export

  /** One language of the export, rows written one after another. */
  function Exported(rows: seq<Row>, text: Row -> string): map<string, Bundle> {
    if rows == [] then map[]
    else
      var root := Exported(rows[..|rows| - 1], text);
      var row := rows[|rows| - 1];
      if Forbidden(Split(row.key)) then root else SetNested(root, Split(row.key), text(row))
  }

  method Export(rows: seq<Row>) returns (en: map<string, Bundle>, bn: map<string, Bundle>)
    ensures en == Exported(rows, (row: Row) => row.en) && bn == Exported(rows, (row: Row) => row.bn)
  {
    var english, bangla := (row: Row) => row.en, (row: Row) => row.bn;
    en, bn := map[], map[];
    for i := 0 to |rows|
      invariant en == Exported(rows[..i], english) && bn == Exported(rows[..i], bangla)
    {
      var segs := Split(rows[i].key);
      assert rows[..i + 1][..i] == rows[..i];
      if !Forbidden(segs) {
        en := SetNested(en, segs, rows[i].en);
        bn := SetNested(bn, segs, rows[i].bn);
      }
    }
    assert rows[..|rows|] == rows;
  }

  ghost predicate RowAt(rows: seq<Row>, text: Row -> string, path: seq<string>, value: string) {
    exists i :: 0 <= i < |rows| && Split(rows[i].key) == path && text(rows[i]) == value
  }

  lemma {:induction false} ExportHasGroups(rows: seq<Row>, text: Row -> string)
    ensures NoEmptyGroups(Exported(rows, text))
  {
    if rows != [] {
      ExportHasGroups(rows[..|rows| - 1], text);
      SetKeepsGroups(Exported(rows[..|rows| - 1], text), Split(rows[|rows| - 1].key), text(rows[|rows| - 1]));
    }
  }

  /** Whatever the export shows is a row. */
  lemma {:induction false} ShownIsRow(rows: seq<Row>, text: Row -> string, path: seq<string>)
    requires Lookup(Exported(rows, text), path).Some?
    ensures RowAt(rows, text, path, Lookup(Exported(rows, text), path).value)
  {
    if rows != [] {
      var front, row := rows[..|rows| - 1], rows[|rows| - 1];
      var segs := Split(row.key);
      var root := Exported(front, text);
      if !Forbidden(segs) && Writable(root, segs) {
        SetThenLookup(root, segs, text(row), path);
      } else if !Forbidden(segs) {
        BlockedIsUnchanged(root, segs, text(row));
      }
      if Lookup(root, path).Some? && Lookup(root, path) == Lookup(Exported(rows, text), path) {
        ShownIsRow(front, text, path);
      }
    }
  }

  /** With the keys apart, the next row is never blocked. */
  lemma NextIsWritable(rows: seq<Row>, text: Row -> string)
    requires KeysApart(rows) && rows != []
    ensures Writable(Exported(rows[..|rows| - 1], text), Split(rows[|rows| - 1].key))
  {
    var front, segs := rows[..|rows| - 1], Split(rows[|rows| - 1].key);
    if !Writable(Exported(front, text), segs) {
      ExportHasGroups(front, text);
      var path := BlockedBy(Exported(front, text), segs);
      ShownIsRow(front, text, path);
    }
  }

  /** Every row is shown, at the path its key spells. */
  lemma {:induction false} RowIsShown(rows: seq<Row>, text: Row -> string, i: nat)
    requires KeysApart(rows) && i < |rows|
    ensures Lookup(Exported(rows, text), Split(rows[i].key)) == Some(text(rows[i]))
  {
    var n := |rows| - 1;
    NextIsWritable(rows, text);
    SetThenLookup(Exported(rows[..n], text), Split(rows[n].key), text(rows[n]), Split(rows[i].key));
    if i < n {
      RowIsShown(rows[..n], text, i);
    }
  }

  /** On keys kept apart, the nested bundles hold exactly the rows: flattening them gives the table back,
      whatever order it was exported in. */
  lemma ExportFlattensBack(rows: seq<Row>, text: Row -> string, path: seq<string>, value: string)
    requires KeysApart(rows)
    ensures Lookup(Exported(rows, text), path) == Some(value) <==> RowAt(rows, text, path, value)
  {
    if RowAt(rows, text, path, value) {
      var i :| 0 <= i < |rows| && Split(rows[i].key) == path && text(rows[i]) == value;
      RowIsShown(rows, text, i);
    }
    if Lookup(Exported(rows, text), path) == Some(value) {
      ShownIsRow(rows, text, path);
    }
  }

  lemma {:induction false} TextEndsPath(root: map<string, Bundle>, p: seq<string>, q: seq<string>)
    requires Lookup(root, p).Some? && p < q
    ensures Lookup(root, q).None?
    decreases |p|
  {
    if root[p[0]].Nested? {
      TextEndsPath(root[p[0]].children, p[1..], q[1..]);
    }
  }

  lemma {:induction false} WrittenNotForbidden(rows: seq<Row>, text: Row -> string, path: seq<string>)
    ensures Lookup(Exported(rows, text), path).Some? ==> !Forbidden(path)
  {
    if rows != [] {
      var front, row := rows[..|rows| - 1], rows[|rows| - 1];
      var segs := Split(row.key);
      var root := Exported(front, text);
      WrittenNotForbidden(front, text, path);
      if !Forbidden(segs) && Writable(root, segs) {
        SetThenLookup(root, segs, text(row), path);
      } else if !Forbidden(segs) {
        BlockedIsUnchanged(root, segs, text(row));
      }
    }
  }

  ghost predicate AllShown(rows: seq<Row>, text: Row -> string) {
    forall i :: 0 <= i < |rows| ==> Lookup(Exported(rows, text), Split(rows[i].key)) == Some(text(rows[i]))
  }

  /** With unique keys no row is lost from the export exactly when the keys are apart. */
  lemma NothingLostIff(rows: seq<Row>, text: Row -> string)
    requires forall i, j :: 0 <= i < j < |rows| ==> rows[i].key != rows[j].key
    ensures AllShown(rows, text) <==> KeysApart(rows)
  {
    if KeysApart(rows) {
      forall i | 0 <= i < |rows|
        ensures Lookup(Exported(rows, text), Split(rows[i].key)) == Some(text(rows[i]))
      {
        RowIsShown(rows, text, i);
      }
    }
    if AllShown(rows, text) {
      forall i | 0 <= i < |rows|
        ensures !Forbidden(Split(rows[i].key))
      {
        WrittenNotForbidden(rows, text, Split(rows[i].key));
      }
      forall i, j | 0 <= i < j < |rows|
        ensures Apart(Split(rows[i].key), Split(rows[j].key))
      {
        BothShown(rows, text, i, j);
      }
    }
  }

  lemma BothShown(rows: seq<Row>, text: Row -> string, i: nat, j: nat)
    requires AllShown(rows, text) && i < j < |rows| && rows[i].key != rows[j].key
    ensures Apart(Split(rows[i].key), Split(rows[j].key))
  {
    var p, q := Split(rows[i].key), Split(rows[j].key);
    JoinSplit(rows[i].key);
    JoinSplit(rows[j].key);
    ApartIff(p, q);
    if p < q {
      TextEndsPath(Exported(rows, text), p, q);
    } else if q < p {
      TextEndsPath(Exported(rows, text), q, p);
    }
  }

  // ----- what a caller sees

  /** A key is accepted exactly when no segment of it is a reserved word and neither it nor any row's key is
      the other, or a group of the other. */
  lemma CreateAcceptedIff(rows: seq<Row>, key: string)
    ensures CheckCreate(rows, key).None? <==>
      && (forall i :: 0 <= i < |Split(key)| ==> Split(key)[i] !in {"__proto__", "prototype", "constructor"})
      && (forall i :: 0 <= i < |rows| ==> Apart(Split(rows[i].key), Split(key)))
  {
    if CheckCreate(rows, key).None? {
      forall i | 0 <= i < |rows|
        ensures Apart(Split(rows[i].key), Split(key))
      {
        CheckMeansApart(rows, key, i);
      }
    } else {
      forall i | 0 <= i < |rows| && (rows[i].key == key || Clash(rows[i].key, key))
        ensures !Apart(Split(rows[i].key), Split(key))
      {
        StartsWithIff(rows[i].key, key);
        PrefixesOfIff(key, rows[i].key);
      }
    }
  }

  /** A create appends its row, an update changes the texts that were sent and never a key. */
  lemma StepLeaves(rows: seq<Row>, step: Step)
    ensures match step
      case Create(row) => Next(rows, step) == if CheckCreate(rows, row.key) == None then rows + [row] else rows
      case Update(id, en, bn) =>
        && |Next(rows, step)| == |rows|
        && forall i :: 0 <= i < |rows| ==>
          var after := Next(rows, step)[i];
          && after.key == rows[i].key
          && after.en == (if i == id && en != None then en.value else rows[i].en)
          && after.bn == (if i == id && bn != None then bn.value else rows[i].bn)
  {
  }

  /** Which refusal a key is answered with. */
  lemma CreateRefusals(rows: seq<Row>, key: string)
    ensures CheckCreate(rows, key) == Some(ReservedWord) <==>
      exists i :: 0 <= i < |Split(key)| && Split(key)[i] in {"__proto__", "prototype", "constructor"}
    ensures CheckCreate(rows, key) == Some(KeyExists) ==> exists i :: 0 <= i < |rows| && rows[i].key == key
    ensures CheckCreate(rows, key) == Some(KeyClashes) ==> forall i :: 0 <= i < |rows| ==> rows[i].key != key
  {
    assert FORBIDDEN_SEGMENTS == {"__proto__", "prototype", "constructor"};
    assert Forbidden(Split(key)) <==> exists i :: 0 <= i < |Split(key)| && Split(key)[i] in FORBIDDEN_SEGMENTS;
  }
}

/**
 * The flattening of a health document as it is done, by one collector filled on the way through the
 * document and then sorted (bsv-regtest/teranode/health.go, flattenHealth and containsStr).
 */
module HealthTable {
  import opened HealthWalk
  import opened Lexical

  // ---- filling the table -----------------------------------------------------------------

  lemma {:induction false} AddLast(t: Table, a: seq<Visit>, b: seq<Visit>, init: seq<Visit>, v: Visit)
    requires b == init + [v] && AddAll(t, a + init) == AddAll(AddAll(t, a), init)
    ensures AddAll(t, a + b) == AddAll(AddAll(t, a), b)
  {
    assert (a + b)[..|a + init|] == a + init && b[..|init|] == init;
  }

  lemma {:induction false} AddConcat(t: Table, a: seq<Visit>, b: seq<Visit>)
    ensures AddAll(t, a + b) == AddAll(AddAll(t, a), b)
    decreases |b|
  {
    if b == [] {
      assert a + b == a;
    } else {
      var init, v := b[..|b| - 1], b[|b| - 1];
      AddConcat(t, a, init);
      AddLast(t, a, b, init, v);
    }
  }

  method ContainsStr(list: seq<string>, s: string) returns (found: bool)
    ensures found == (s in list)
  {
    for i := 0 to |list|
      invariant s !in list[..i]
    {
      if list[i] == s { return true; }
    }
    found := false;
  }

  class Collector {
    var out: seq<Row>
    var idx: map<Key, nat>

    constructor ()
      ensures Now() == Table([], map[])
    {
      out, idx := [], map[];
    }

    ghost function Now(): Table
      reads this
    {
      Table(out, idx)
    }

    ghost predicate Valid()
      reads this
    {
      forall k | k in idx :: idx[k] < |out|
    }

    // What the walk does at a node that carries a check.
    method Record(d: Doc, service: string)
      requires Valid() && d.resource != ""
      modifies this
      ensures Valid()
      ensures Now() == Add(old(Now()), Visit(Key(d.resource, d.status, d.error), d.message, service))
    {
      var k := Key(d.resource, d.status, d.error);
      var i;
      if k in idx {
        i := idx[k];
      } else {
        out := out + [NewRow(Visit(k, d.message, service))];
        i := |out| - 1;
        idx := idx[k := i];
      }
      if service != "" {
        var seen := ContainsStr(out[i].seenIn, service);
        if !seen {
          out := out[i := out[i].(seenIn := out[i].seenIn + [service])];
        }
      }
    }

    method Walk(d: Doc, inherited: string)
      requires Valid()
      modifies this
      ensures Valid() && Now() == AddAll(old(Now()), Visits(d, inherited))
      decreases d, 1
    {
      ghost var was := Now();
      var service := inherited;
      if d.service != "" { service := d.service; }
      if d.resource != "" { Record(d, service); }
      OwnAdded(was, d, service);
      WalkAll(d, d.services, service);
      AddConcat(was, Own(d, service), VisitsAll(d.services, service));
      WalkAll(d, d.dependencies, service);
      AddConcat(was, Own(d, service) + VisitsAll(d.services, service), VisitsAll(d.dependencies, service));
    }

    method WalkAll(ghost parent: Doc, docs: seq<Doc>, service: string)
      requires Valid() && forall j | 0 <= j < |docs| :: docs[j] < parent
      modifies this
      ensures Valid() && Now() == AddAll(old(Now()), VisitsAll(docs, service))
      decreases parent, 0
    {
      ghost var was := Now();
      for j := 0 to |docs|
        invariant Valid() && Now() == AddAll(was, VisitsAll(docs[..j], service))
      {
        Walk(docs[j], service);
        AddConcat(was, VisitsAll(docs[..j], service), Visits(docs[j], service));
        assert docs[..j + 1][..j] == docs[..j];
      }
      assert docs[..|docs|] == docs;
    }
  }

  lemma {:induction false} OwnAdded(t: Table, d: Doc, service: string)
    ensures AddAll(t, Own(d, service)) ==
      if d.resource != "" then Add(t, Visit(Key(d.resource, d.status, d.error), d.message, service)) else t
  {
    if d.resource != "" {
      assert Own(d, service)[..0] == [];
      assert AddAll(t, []) == t;
    }
  }

  // ---- sorting it ------------------------------------------------------------------------

  // Failures first, then by resource.
  predicate Before(a: Row, b: Row) { if a.ok != b.ok then !a.ok else Less(a.resource, b.resource) }

  function Insert(s: seq<Row>, r: Row): (t: seq<Row>)
    ensures |t| == |s| + 1
  {
    if s == [] then [r] else if Before(r, s[0]) then [r] + s else [s[0]] + Insert(s[1..], r)
  }

  // The stable sort.
  function SortRows(rows: seq<Row>): seq<Row> {
    if rows == [] then [] else Insert(SortRows(rows[..|rows| - 1]), rows[|rows| - 1])
  }

  ghost predicate InOrder(s: seq<Row>) { forall i, j | 0 <= i < j < |s| :: !Before(s[j], s[i]) }

  // The rows alike for the sort, in the order they stand.
  function Alike(s: seq<Row>, ok: bool, resource: string): seq<Row> {
    if s == [] then []
    else (if s[0].ok == ok && s[0].resource == resource then [s[0]] else []) + Alike(s[1..], ok, resource)
  }

  lemma {:induction false} BeforeIsTransitive(a: Row, b: Row, c: Row)
    requires Before(a, b) && Before(b, c)
    ensures Before(a, c)
  {
    if a.ok == b.ok == c.ok { LessIsTransitive(a.resource, b.resource, c.resource); }
  }

  lemma {:induction false} NoneBeforeFirst(s: seq<Row>, j: nat)
    requires InOrder(s) && j < |s|
    ensures !Before(s[j], s[0])
  {
    if Less(s[0].resource, s[0].resource) { LessIsStrict(s[0].resource, s[0].resource); }
  }

  lemma {:induction false} NotBefore(a: Row, b: Row, c: Row)
    requires Before(b, c) && !Before(a, c)
    ensures !Before(a, b)
  {
    if Before(a, b) { BeforeIsTransitive(a, b, c); }
  }

  lemma {:induction false} InsertHolds(s: seq<Row>, r: Row, i: nat)
    requires i < |Insert(s, r)|
    ensures Insert(s, r)[i] == r || Insert(s, r)[i] in s
  {
    if s != [] && !Before(r, s[0]) && i > 0 { InsertHolds(s[1..], r, i - 1); }
  }

  lemma {:induction false} InsertInOrder(s: seq<Row>, r: Row)
    requires InOrder(s)
    ensures InOrder(Insert(s, r))
  {
    if s != [] && Before(r, s[0]) {
      forall j | 0 <= j < |s| ensures !Before(s[j], r) {
        NoneBeforeFirst(s, j);
        NotBefore(s[j], r, s[0]);
      }
    } else if s != [] {
      InsertInOrder(s[1..], r);
      forall i | 0 <= i < |s| ensures !Before(Insert(s[1..], r)[i], s[0]) {
        InsertHolds(s[1..], r, i);
      }
    }
  }

  lemma {:induction false} AlikeCons(r: Row, s: seq<Row>, ok: bool, resource: string)
    ensures Alike([r] + s, ok, resource) == (if r.ok == ok && r.resource == resource then [r] else []) + Alike(s, ok, resource)
  {
    assert ([r] + s)[1..] == s;
  }

  lemma {:induction false} InsertAlike(s: seq<Row>, r: Row, ok: bool, resource: string)
    requires InOrder(s)
    ensures Alike(Insert(s, r), ok, resource)
      == Alike(s, ok, resource) + if r.ok == ok && r.resource == resource then [r] else []
  {
    if s == [] {
      assert [r][1..] == [];
    } else if Before(r, s[0]) {
      AlikeCons(r, s, ok, resource);
      if r.ok == ok && r.resource == resource {
        forall j | 0 <= j < |s| ensures s[j].ok != ok || s[j].resource != resource {
          NoneBeforeFirst(s, j);
        }
        NoneAlike(s, ok, resource);
      }
    } else {
      InsertAlike(s[1..], r, ok, resource);
      AlikeCons(s[0], Insert(s[1..], r), ok, resource);
    }
  }

  lemma {:induction false} NoneAlike(s: seq<Row>, ok: bool, resource: string)
    requires forall j | 0 <= j < |s| :: s[j].ok != ok || s[j].resource != resource
    ensures Alike(s, ok, resource) == []
  {
    if s != [] { NoneAlike(s[1..], ok, resource); }
  }

  lemma {:induction false} AlikeSnoc(s: seq<Row>, r: Row, ok: bool, resource: string)
    ensures Alike(s + [r], ok, resource)
      == Alike(s, ok, resource) + if r.ok == ok && r.resource == resource then [r] else []
  {
    if s == [] {
      assert [r][1..] == [] && s + [r] == [r];
    } else {
      AlikeSnoc(s[1..], r, ok, resource);
      AlikeLonger(s[0], s[1..], s, r, ok, resource);
    }
  }

  lemma {:induction false} AlikeLonger(x: Row, rest: seq<Row>, s: seq<Row>, r: Row, ok: bool, resource: string)
    requires s == [x] + rest
    requires Alike(rest + [r], ok, resource)
      == Alike(rest, ok, resource) + if r.ok == ok && r.resource == resource then [r] else []
    ensures Alike(s + [r], ok, resource)
      == Alike(s, ok, resource) + if r.ok == ok && r.resource == resource then [r] else []
  {
    AlikeCons(x, rest, ok, resource);
    AlikeCons(x, rest + [r], ok, resource);
    assert s + [r] == [x] + (rest + [r]);
  }

  // Sorted, with nothing lost or added, and rows that sort alike left in the order they had.
  lemma {:induction false} SortIsStable(rows: seq<Row>, ok: bool, resource: string)
    ensures InOrder(SortRows(rows)) && |SortRows(rows)| == |rows|
    ensures Alike(SortRows(rows), ok, resource) == Alike(rows, ok, resource)
  {
    if rows != [] {
      var n := |rows| - 1;
      SortIsStable(rows[..n], ok, resource);
      InsertInOrder(SortRows(rows[..n]), rows[n]);
      InsertAlike(SortRows(rows[..n]), rows[n], ok, resource);
      AlikeSnoc(rows[..n], rows[n], ok, resource);
      assert rows == rows[..n] + [rows[n]];
    }
  }

  // Failing rows come before healthy ones.
  lemma {:induction false} FailuresFirst(rows: seq<Row>, i: nat, j: nat)
    requires i < j < |SortRows(rows)| && !SortRows(rows)[j].ok
    ensures !SortRows(rows)[i].ok
  {
    SortIsStable(rows, true, "");
    assert !Before(SortRows(rows)[j], SortRows(rows)[i]);
  }

  // Among the failing rows, and among the healthy ones, resources ascend.
  lemma {:induction false} ThenByResource(rows: seq<Row>, i: nat, j: nat)
    requires i < j < |SortRows(rows)| && SortRows(rows)[i].ok == SortRows(rows)[j].ok
    ensures var a, b := SortRows(rows)[i].resource, SortRows(rows)[j].resource; a == b || exists k :: SmallerAt(a, b, k)
  {
    SortIsStable(rows, true, "");
    var a, b := SortRows(rows)[i].resource, SortRows(rows)[j].resource;
    assert !Before(SortRows(rows)[j], SortRows(rows)[i]);
    LessIsTotal(a, b);
    LessIs(a, b);
  }

  // ---- the whole -------------------------------------------------------------------------

  method FlattenHealth(doc: Doc) returns (rows: seq<Row>)
    ensures rows == SortRows(AddAll(Table([], map[]), Visits(doc, "")).rows)
  {
    var c := new Collector();
    c.Walk(doc, "");
    rows := SortRows(c.out);
  }

  // ---- where rows go ---------------------------------------------------------------------

  lemma {:induction false} InsertAt(s: seq<Row>, r: Row) returns (pos: nat)
    ensures pos <= |s| && Insert(s, r) == s[..pos] + [r] + s[pos..]
  {
    if s == [] || Before(r, s[0]) {
      pos := 0;
    } else {
      var k := InsertAt(s[1..], r);
      pos := k + 1;
      assert s[..pos] == [s[0]] + s[1..][..k] && s[pos..] == s[1..][k..];
    }
  }

  // Row i of a table stands at to[i] behind sorting, and from undoes to.
  ghost predicate Permutes(rows: seq<Row>, sorted: seq<Row>, to: seq<nat>, from: seq<nat>) {
    && |rows| == |sorted| == |to| == |from|
    && (forall i | 0 <= i < |rows| :: to[i] < |sorted| && sorted[to[i]] == rows[i] && from[to[i]] == i)
    && forall j | 0 <= j < |sorted| :: from[j] < |rows| && to[from[j]] == j
  }

  lemma {:induction false} InsertPermutes(rows: seq<Row>, sorted: seq<Row>, to: seq<nat>, from: seq<nat>, r: Row, pos: nat)
      returns (to': seq<nat>, from': seq<nat>)
    requires Permutes(rows, sorted, to, from) && pos <= |sorted|
    ensures Permutes(rows + [r], sorted[..pos] + [r] + sorted[pos..], to', from')
  {
    to' := seq(|to|, i requires 0 <= i < |to| => if to[i] < pos then to[i] else to[i] + 1) + [pos];
    from' := from[..pos] + [|rows|] + from[pos..];
  }

  lemma {:induction false} SortPermutes(rows: seq<Row>) returns (to: seq<nat>, from: seq<nat>)
    ensures Permutes(rows, SortRows(rows), to, from)
  {
    if rows == [] {
      to, from := [], [];
    } else {
      var init, r := rows[..|rows| - 1], rows[|rows| - 1];
      to, from := SortPermutes(init);
      var pos := InsertAt(SortRows(init), r);
      to, from := InsertPermutes(init, SortRows(init), to, from, r, pos);
      assert rows == init + [r];
    }
  }

  lemma {:induction false} PermutedTabulates(t: Table, visits: seq<Visit>, sorted: seq<Row>, to: seq<nat>, from: seq<nat>)
      returns (idx: map<Key, nat>)
    requires Tabulates(t, visits) && Permutes(t.rows, sorted, to, from)
    ensures Tabulates(Table(sorted, idx), visits)
  {
    idx := map k | k in t.idx :: to[t.idx[k]];
    forall j | 0 <= j < |sorted| ensures Filled(idx, j) {
      assert Filled(t.idx, from[j]);
      var k :| k in t.idx && t.idx[k] == from[j];
      assert k in idx && idx[k] == j;
    }
    forall a, b | a in idx && b in idx && idx[a] == idx[b] ensures a == b {
      assert from[to[t.idx[a]]] == t.idx[a] && from[to[t.idx[b]]] == t.idx[b];
    }
  }

  // The rows returned and the distinct checks of the document correspond one to one: every check has its one
  // row, which names the services it was reached through, and there are no other rows; and they are in order.
  lemma {:induction false} FlattenedHealth(doc: Doc, rows: seq<Row>) returns (idx: map<Key, nat>)
    requires rows == SortRows(AddAll(Table([], map[]), Visits(doc, "")).rows)
    ensures Tabulates(Table(rows, idx), Visits(doc, "")) && InOrder(rows)
    ensures forall v | v in Visits(doc, "") :: v.key.resource != ""
  {
    var t := AddAll(Table([], map[]), Visits(doc, ""));
    WalkTabulates(Visits(doc, ""));
    SortIsStable(t.rows, true, "");
    var to, from := SortPermutes(t.rows);
    idx := PermutedTabulates(t, Visits(doc, ""), rows, to, from);
    forall v | v in Visits(doc, "") ensures v.key.resource != "" {
      var path := VisitHasPath(doc, "", v);
    }
  }
}

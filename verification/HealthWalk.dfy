/**
 * A teranode health document flattened into one row for each distinct check
 * (bsv-regtest/teranode/health.go, flattenHealth).
 */
module HealthWalk {
  import opened Basics
  import opened Decimal

  datatype Doc = Doc(
    service: string, resource: string, status: string, error: string, message: string,
    services: seq<Doc>, dependencies: seq<Doc>)

  datatype Key = Key(resource: string, status: string, error: string)

  // A node with a check, as the walk comes by it: with the nearest service named above or at it.
  datatype Visit = Visit(key: Key, message: string, service: string)

  datatype Row = Row(resource: string, status: int, error: string, message: string, seenIn: seq<string>, ok: bool)

  function Named(d: Doc, inherited: string): string { if d.service != "" then d.service else inherited }

  function Own(d: Doc, service: string): seq<Visit> {
    if d.resource != "" then [Visit(Key(d.resource, d.status, d.error), d.message, service)] else []
  }

  // The walk: the node itself, then its services, then its dependencies.
  function Visits(d: Doc, inherited: string): seq<Visit>
    decreases d
  {
    var service := Named(d, inherited);
    Own(d, service) + VisitsAll(d.services, service) + VisitsAll(d.dependencies, service)
  }

  function VisitsAll(docs: seq<Doc>, service: string): seq<Visit>
    decreases docs
  {
    if docs == [] then []
    else VisitsAll(docs[..|docs| - 1], service) + Visits(docs[|docs| - 1], service)
  }

  // ---- rows ------------------------------------------------------------------------------

  // The rows so far and where each check's row is.
  datatype Table = Table(rows: seq<Row>, idx: map<Key, nat>)

  // The healthy value is written "<nil>".
  function ErrorText(error: string): string { if error == "<nil>" then "" else error }

  function NewRow(v: Visit): Row {
    var status, error := Atoi(v.key.status), ErrorText(v.key.error);
    Row(v.key.resource, status, error, v.message, [], status == 200 && error == "")
  }

  function See(r: Row, service: string): Row {
    if service != "" && service !in r.seenIn then r.(seenIn := r.seenIn + [service]) else r
  }

  function Add(t: Table, v: Visit): Table {
    if v.key in t.idx && t.idx[v.key] < |t.rows| then
      t.(rows := t.rows[t.idx[v.key] := See(t.rows[t.idx[v.key]], v.service)])
    else
      Table(t.rows + [See(NewRow(v), v.service)], t.idx[v.key := |t.rows|])
  }

  function AddAll(t: Table, visits: seq<Visit>): Table {
    if visits == [] then t else Add(AddAll(t, visits[..|visits| - 1]), visits[|visits| - 1])
  }

  // The services a check was reached through.
  function ServicesOf(visits: seq<Visit>, key: Key): set<string> {
    set v | v in visits && v.key == key && v.service != "" :: v.service
  }

  function FirstMessage(visits: seq<Visit>, key: Key): string {
    if visits == [] then ""
    else
      var n := |visits| - 1;
      if visits[n].key == key && !Visited(visits[..n], key) then visits[n].message else FirstMessage(visits[..n], key)
  }

  predicate Visited(visits: seq<Visit>, key: Key) { exists i | 0 <= i < |visits| :: visits[i].key == key }

  ghost predicate NoRepeats(s: seq<string>) { forall i, j | 0 <= i < j < |s| :: s[i] != s[j] }

  // A row shows its check and, each once, the services the check was reached through.
  ghost predicate Shows(r: Row, key: Key, visits: seq<Visit>) {
    && r.resource == key.resource && r.status == Atoi(key.status)
    && r.error == (if key.error == "<nil>" then "" else key.error)
    && r.message == FirstMessage(visits, key)
    && r.ok == (r.status == 200 && r.error == "")
    && NoRepeats(r.seenIn)
    && forall s :: s in r.seenIn <==> s in ServicesOf(visits, key)
  }

  ghost predicate Filled(idx: map<Key, nat>, i: nat) { exists k :: k in idx && idx[k] == i }

  // Rows and the distinct checks visited correspond one to one.
  ghost predicate Tabulates(t: Table, visits: seq<Visit>) {
    && (forall k :: k in t.idx <==> Visited(visits, k))
    && (forall k | k in t.idx :: t.idx[k] < |t.rows| && Shows(t.rows[t.idx[k]], k, visits))
    && (forall a, b | a in t.idx && b in t.idx && t.idx[a] == t.idx[b] :: a == b)
    && (forall i | 0 <= i < |t.rows| :: Filled(t.idx, i))
  }

  lemma {:induction false} VisitedMore(visits: seq<Visit>, v: Visit, key: Key)
    ensures Visited(visits + [v], key) <==> Visited(visits, key) || v.key == key
    ensures ServicesOf(visits + [v], key)
      == ServicesOf(visits, key) + if v.key == key && v.service != "" then {v.service} else {}
    ensures Visited(visits, key) || v.key != key ==> FirstMessage(visits + [v], key) == FirstMessage(visits, key)
    ensures !Visited(visits, key) && v.key == key ==> FirstMessage(visits + [v], key) == v.message
  {
    var all, n := visits + [v], |visits|;
    assert all[..n] == visits && all[n] == v;
    assert Visited(visits, key) ==> Visited(all, key) by {
      if Visited(visits, key) {
        var i :| 0 <= i < n && visits[i].key == key;
        assert all[i].key == key;
      }
    }
    assert forall x :: x in all <==> x in visits || x == v;
  }

  lemma {:induction false} SeeShows(r: Row, key: Key, visits: seq<Visit>, v: Visit)
    requires Shows(r, key, visits) && Visited(visits, key) && v.key == key
    ensures Shows(See(r, v.service), key, visits + [v])
  {
    VisitedMore(visits, v, key);
  }

  lemma {:induction false} NewShows(visits: seq<Visit>, v: Visit)
    requires !Visited(visits, v.key)
    ensures Shows(See(NewRow(v), v.service), v.key, visits + [v])
  {
    VisitedMore(visits, v, v.key);
    forall w | w in visits ensures Visited(visits, w.key) {
      var i :| 0 <= i < |visits| && visits[i] == w;
    }
  }

  lemma {:induction false} OtherShows(r: Row, key: Key, visits: seq<Visit>, v: Visit)
    requires Shows(r, key, visits) && v.key != key
    ensures Shows(r, key, visits + [v])
  {
    VisitedMore(visits, v, key);
  }

  lemma {:induction false} AddTabulates(t: Table, visits: seq<Visit>, v: Visit)
    requires Tabulates(t, visits)
    ensures Tabulates(Add(t, v), visits + [v])
  {
    AddFinds(t, visits, v);
    AddApart(t, visits, v);
    AddShowsAll(t, visits, v);
  }

  lemma {:induction false} AddApart(t: Table, visits: seq<Visit>, v: Visit)
    requires Tabulates(t, visits)
    ensures var idx := Add(t, v).idx; forall a, b | a in idx && b in idx && idx[a] == idx[b] :: a == b
  {
  }

  lemma {:induction false} AddShowsAll(t: Table, visits: seq<Visit>, v: Visit)
    requires Tabulates(t, visits)
    ensures var u := Add(t, v); forall k | k in u.idx :: u.idx[k] < |u.rows| && Shows(u.rows[u.idx[k]], k, visits + [v])
  {
    var u := Add(t, v);
    forall k | k in u.idx ensures u.idx[k] < |u.rows| && Shows(u.rows[u.idx[k]], k, visits + [v]) {
      AddShows(t, visits, v, k);
    }
  }

  lemma {:induction false} AddFinds(t: Table, visits: seq<Visit>, v: Visit)
    requires Tabulates(t, visits)
    ensures forall k :: k in Add(t, v).idx <==> Visited(visits + [v], k)
    ensures forall i | 0 <= i < |Add(t, v).rows| :: Filled(Add(t, v).idx, i)
  {
    forall k ensures k in Add(t, v).idx <==> Visited(visits + [v], k) {
      VisitedMore(visits, v, k);
    }
    forall i | 0 <= i < |Add(t, v).rows| ensures Filled(Add(t, v).idx, i) {
      AddFills(t, v, i);
    }
  }

  lemma {:induction false} AddFills(t: Table, v: Visit, i: nat)
    requires i < |Add(t, v).rows| && (i < |t.rows| ==> Filled(t.idx, i))
    requires forall k | k in t.idx :: t.idx[k] < |t.rows|
    ensures Filled(Add(t, v).idx, i)
  {
    var idx := Add(t, v).idx;
    if i < |t.rows| {
      var k :| k in t.idx && t.idx[k] == i;
      assert k in idx && idx[k] == i;
    } else {
      assert v.key in idx && idx[v.key] == i;
    }
  }

  lemma {:induction false} AddShows(t: Table, visits: seq<Visit>, v: Visit, k: Key)
    requires Tabulates(t, visits) && k in Add(t, v).idx
    ensures Add(t, v).idx[k] < |Add(t, v).rows|
    ensures Shows(Add(t, v).rows[Add(t, v).idx[k]], k, visits + [v])
  {
    if k != v.key {
      OtherShows(t.rows[t.idx[k]], k, visits, v);
    } else if k in t.idx {
      SeeShows(t.rows[t.idx[k]], k, visits, v);
    } else {
      NewShows(visits, v);
    }
  }

  lemma {:induction false} WalkMore(init: seq<Visit>, v: Visit, visits: seq<Visit>)
    requires visits == init + [v] && Tabulates(AddAll(Table([], map[]), init), init)
    ensures Tabulates(AddAll(Table([], map[]), visits), visits)
  {
    assert visits[..|init|] == init;
    AddTabulates(AddAll(Table([], map[]), init), init, v);
  }

  lemma {:induction false} WalkTabulates(visits: seq<Visit>)
    ensures Tabulates(AddAll(Table([], map[]), visits), visits)
  {
    if visits != [] {
      var init, v := visits[..|visits| - 1], visits[|visits| - 1];
      WalkTabulates(init);
      WalkMore(init, v, visits);
    }
  }

  // Services are walked before dependencies, and the node itself before both: of a check reported by all three the
  // row has the node's message, and without it the service's.
  lemma {:induction false} ServicesFirst(check: Key, own: string, first: string, second: string)
    requires check.resource != ""
    ensures var leaf := (m: string) => Doc("", check.resource, check.status, check.error, m, [], []);
      && FirstMessage(Visits(Doc("", check.resource, check.status, check.error, own, [leaf(first)], [leaf(second)]), ""), check) == own
      && FirstMessage(Visits(Doc("", "", "", "", own, [leaf(first)], [leaf(second)]), ""), check) == first
  {
    var a, b := Visit(check, first, ""), Visit(check, second, "");
    var s, d := Leaf(check, first), Leaf(check, second);
    LeafVisits(check, first);
    LeafVisits(check, second);
    assert Visits(Doc("", "", "", "", own, [s], [d]), "") == [a, b];
    assert Visits(Doc("", check.resource, check.status, check.error, own, [s], [d]), "") == [Visit(check, own, "")] + [a, b];
    FirstOf(a, [b]);
    FirstOf(Visit(check, own, ""), [a, b]);
    assert [a] + [b] == [a, b];
  }

  function Leaf(check: Key, m: string): Doc { Doc("", check.resource, check.status, check.error, m, [], []) }

  lemma {:induction false} LeafVisits(check: Key, m: string)
    requires check.resource != ""
    ensures VisitsAll([Leaf(check, m)], "") == [Visit(check, m, "")]
  {
    var d := Leaf(check, m);
    assert [d][..0] == [];
    assert Visits(d, "") == [Visit(check, m, "")];
  }

  lemma {:induction false} FirstOf(v: Visit, rest: seq<Visit>)
    ensures FirstMessage([v] + rest, v.key) == v.message
    decreases |rest|
  {
    var all := [v] + rest;
    if rest == [] {
      assert all[..0] == [] && all[0] == v;
    } else {
      assert all[..|all| - 1] == [v] + rest[..|rest| - 1];
      FirstOf(v, rest[..|rest| - 1]);
      assert all[..|all| - 1][0].key == v.key;
    }
  }

  // ---- which nodes are visited, told by paths through the document -------------------------

  datatype Turn = IntoService(i: nat) | IntoDependency(i: nat)

  predicate Has(d: Doc, turn: Turn) {
    match turn
    case IntoService(i) => i < |d.services|
    case IntoDependency(i) => i < |d.dependencies|
  }

  function Child(d: Doc, turn: Turn): (c: Doc)
    requires Has(d, turn)
    ensures c < d
  {
    match turn
    case IntoService(i) => d.services[i]
    case IntoDependency(i) => d.dependencies[i]
  }

  // The documents from the root down a path, or none if the path leaves the document.
  function Down(d: Doc, path: seq<Turn>): Option<seq<Doc>> {
    if path == [] then Some([d])
    else if !Has(d, path[0]) then None
    else match Down(Child(d, path[0]), path[1..])
         case Some(below) => Some([d] + below)
         case None => None
  }

  // The nearest service named at the end of a line of documents or above it.
  function Nearest(inherited: string, line: seq<Doc>): string
    decreases |line|
  {
    if line == [] then inherited else Nearest(Named(line[0], inherited), line[1..])
  }

  // The same from below: the last document of the line that names one.
  lemma {:induction false} NearestIsLast(inherited: string, line: seq<Doc>)
    requires line != []
    ensures Nearest(inherited, line)
      == if line[|line| - 1].service != "" then line[|line| - 1].service else Nearest(inherited, line[..|line| - 1])
    decreases |line|
  {
    if |line| > 1 {
      NearestIsLast(Named(line[0], inherited), line[1..]);
      assert line[1..][..|line| - 2] == line[..|line| - 1][1..];
    }
  }

  ghost predicate VisitsLine(v: Visit, inherited: string, line: seq<Doc>) {
    && line != []
    && var d := line[|line| - 1];
      d.resource != "" && v == Visit(Key(d.resource, d.status, d.error), d.message, Nearest(inherited, line))
  }

  ghost predicate UnderOne(docs: seq<Doc>, service: string, v: Visit) {
    exists i | 0 <= i < |docs| :: v in Visits(docs[i], service)
  }

  lemma {:induction false} InAll(docs: seq<Doc>, service: string, v: Visit)
    ensures v in VisitsAll(docs, service) <==> UnderOne(docs, service, v)
  {
    if docs != [] {
      var n := |docs| - 1;
      InAll(docs[..n], service, v);
      if v in VisitsAll(docs[..n], service) {
        var i :| 0 <= i < n && v in Visits(docs[..n][i], service);
        assert docs[i] == docs[..n][i];
      }
      if UnderOne(docs, service, v) && v !in Visits(docs[n], service) {
        var i :| 0 <= i < |docs| && v in Visits(docs[i], service);
        assert docs[..n][i] == docs[i];
      }
    }
  }

  lemma {:induction false} VisitHasPath(d: Doc, inherited: string, v: Visit) returns (path: seq<Turn>)
    requires v in Visits(d, inherited)
    ensures Down(d, path).Some? && VisitsLine(v, inherited, Down(d, path).value)
    decreases d
  {
    var service := Named(d, inherited);
    if v in Own(d, service) { return []; }
    var turn := TurnTo(d, service, v);
    var below := VisitHasPath(Child(d, turn), service, v);
    path := [turn] + below;
    assert path[1..] == below;
    var line := Down(Child(d, turn), below).value;
    assert ([d] + line)[1..] == line;
  }

  lemma {:induction false} TurnTo(d: Doc, service: string, v: Visit) returns (turn: Turn)
    requires v in VisitsAll(d.services, service) || v in VisitsAll(d.dependencies, service)
    ensures Has(d, turn) && v in Visits(Child(d, turn), service)
  {
    if v in VisitsAll(d.services, service) {
      InAll(d.services, service, v);
      var i :| 0 <= i < |d.services| && v in Visits(d.services[i], service);
      turn := IntoService(i);
    } else {
      InAll(d.dependencies, service, v);
      var i :| 0 <= i < |d.dependencies| && v in Visits(d.dependencies[i], service);
      turn := IntoDependency(i);
    }
  }

  lemma {:induction false} PathIsVisited(d: Doc, inherited: string, path: seq<Turn>, v: Visit)
    requires Down(d, path).Some? && VisitsLine(v, inherited, Down(d, path).value)
    ensures v in Visits(d, inherited)
    decreases |path|
  {
    var service := Named(d, inherited);
    if path == [] {
      assert [d][1..] == [];
      assert Down(d, path).value == [d];
      assert Nearest(inherited, [d]) == Nearest(service, []);
      assert v in Own(d, service);
    } else {
      var line := Down(Child(d, path[0]), path[1..]).value;
      assert ([d] + line)[1..] == line;
      PathIsVisited(Child(d, path[0]), service, path[1..], v);
      InAll(d.services, service, v);
      InAll(d.dependencies, service, v);
    }
  }
}

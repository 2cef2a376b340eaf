/** The Addressables catalog: parsing a possibly cyclic location graph, and closed selections of it. */
module Catalog {
  import opened Wrappers
  import opened Seqs
  import opened CatalogReader

  datatype Location = Location(
    id: nat, primaryKey: string, internalId: string, providerId: string, dependencies: seq<nat>)

  datatype Graph = Graph(locations: seq<Location>, keys: map<string, seq<nat>>)

  const MAGIC: nat := 0x0de3_8942

  // ---- What the bytes say ----------------------------------------------------------------------

  function Dependencies(b: Blob, id: nat): Option<seq<nat>> {
    if Slice(b, id, 24).None? then None
    else
      match U32(b, id + 12)
      case Some(list) => Ids(b, list)
      case None => None
  }

  /** The key table: eight bytes a row, a key object and a list of location ids. */
  function Table(b: Blob): (r: Option<seq<Byte>>)
    ensures r.Some? ==> |r.value| % 8 == 0
  {
    match U32(b, 8)
    case Some(id) => Array(b, id, 8)
    case None => None
  }

  function RowObject(rows: seq<Byte>, i: nat): nat
    requires 8 * i + 8 <= |rows|
  {
    Word(rows[8 * i..8 * i + 4])
  }

  function RowIds(b: Blob, rows: seq<Byte>, i: nat): Option<seq<nat>>
    requires 8 * i + 8 <= |rows|
  {
    Ids(b, Word(rows[8 * i + 4..8 * i + 8]))
  }

  function Joined(lists: nat -> seq<nat>, n: nat): seq<nat> {
    if n == 0 then [] else Joined(lists, n - 1) + lists(n - 1)
  }

  /** The ids each row names; a row that cannot be read names none. */
  function RowLists(b: Blob, rows: seq<Byte>): nat -> seq<nat> {
    (i: nat) =>
      if 8 * i + 8 > |rows| then []
      else match RowIds(b, rows, i) case Some(ids) => ids case None => []
  }

  /** The ids named by the first `n` rows. */
  function TableIds(b: Blob, rows: seq<Byte>, n: nat): seq<nat> {
    Joined(RowLists(b, rows), n)
  }

  function Roots(b: Blob): seq<nat> {
    match Table(b)
    case Some(rows) => TableIds(b, rows, |rows| / 8)
    case None => []
  }

  /** A set of ids that no dependency leaves. */
  ghost predicate Closed(b: Blob, t: set<nat>) {
    forall id, d | id in t && Dependencies(b, id).Some? && d in Dependencies(b, id).value :: d in t
  }

  ghost predicate HasAll(ids: seq<nat>, t: set<nat>) {
    forall id | id in ids :: id in t
  }

  // ---- Ordered locations -----------------------------------------------------------------------

  function IdsOf(s: seq<Location>): set<nat> {
    if s == [] then {} else IdsOf(s[..|s| - 1]) + {s[|s| - 1].id}
  }

  function Links(s: seq<Location>): nat {
    if s == [] then 0 else Links(s[..|s| - 1]) + |s[|s| - 1].dependencies|
  }

  ghost predicate Ascending(s: seq<Location>) {
    forall i, j | 0 <= i < j < |s| :: s[i].id < s[j].id
  }

  function Insert(s: seq<Location>, l: Location): seq<Location> {
    if s == [] || s[|s| - 1].id < l.id then s + [l]
    else Insert(s[..|s| - 1], l) + [s[|s| - 1]]
  }

  lemma {:induction false} IdsMembers(s: seq<Location>, id: nat)
    ensures id in IdsOf(s) <==> exists i :: 0 <= i < |s| && s[i].id == id
  {
    if s != [] {
      IdsMembers(s[..|s| - 1], id);
      assert forall i | 0 <= i < |s| - 1 :: s[..|s| - 1][i] == s[i];
    }
  }

  lemma {:induction false} InsertSums(s: seq<Location>, l: Location)
    ensures |Insert(s, l)| == |s| + 1
    ensures IdsOf(Insert(s, l)) == IdsOf(s) + {l.id} && Links(Insert(s, l)) == Links(s) + |l.dependencies|
  {
    if s == [] || s[|s| - 1].id < l.id {
      assert (s + [l])[..|s|] == s;
    } else {
      var more := Insert(s[..|s| - 1], l);
      InsertSums(s[..|s| - 1], l);
      assert (more + [s[|s| - 1]])[..|more|] == more;
    }
  }

  lemma {:induction false} InsertMembers(s: seq<Location>, l: Location)
    ensures forall x :: x in Insert(s, l) <==> x in s || x == l
  {
    if s != [] {
      assert s == s[..|s| - 1] + [s[|s| - 1]];
      if s[|s| - 1].id >= l.id {
        InsertMembers(s[..|s| - 1], l);
      }
    }
  }

  lemma {:induction false} InsertAscends(s: seq<Location>, l: Location)
    requires Ascending(s) && l.id !in IdsOf(s)
    ensures Ascending(Insert(s, l))
  {
    if s != [] && s[|s| - 1].id >= l.id {
      var init, last := s[..|s| - 1], s[|s| - 1];
      InsertAscends(init, l);
      InsertMembers(init, l);
      var more := Insert(init, l);
      forall i | 0 <= i < |more| ensures more[i].id < last.id {
        assert more[i] in more;
        if more[i] != l {
          var j :| 0 <= j < |init| && init[j] == more[i];
          assert s[j] == init[j];
        }
      }
    }
  }

  lemma InsertKeeps(s: seq<Location>, l: Location)
    requires Ascending(s) && l.id !in IdsOf(s)
    ensures Ascending(Insert(s, l)) && |Insert(s, l)| == |s| + 1
    ensures IdsOf(Insert(s, l)) == IdsOf(s) + {l.id} && Links(Insert(s, l)) == Links(s) + |l.dependencies|
    ensures forall x :: x in Insert(s, l) <==> x in s || x == l
  {
    InsertSums(s, l);
    InsertMembers(s, l);
    InsertAscends(s, l);
  }

  // ---- Reading one location --------------------------------------------------------------------

  /** The location at `id` and the stored length of its three texts. */
  function LocationAt(b: Blob, id: nat): Option<(Location, nat)> {
    match (Dependencies(b, id), TextAt(b, id, "/"), TextAt(b, id + 4, "/"), TextAt(b, id + 8, "."))
    case (Some(dependencies), Some((primary, x)), Some((internal, y)), Some((provider, z))) =>
      Some((Location(id, primary, internal, provider, dependencies), x + y + z))
    case _ => None
  }

  /** The text of the reference stored at an offset. */
  function TextAt(b: Blob, offset: nat, separator: string): Option<(string, nat)> {
    match U32(b, offset)
    case Some(reference) => Text(b, reference, separator)
    case None => None
  }

  /** A location says what the bytes at its id say. */
  ghost predicate Described(b: Blob, l: Location) {
    && Dependencies(b, l.id) == Some(l.dependencies)
    && U32(b, l.id).Some? && Means(b, U32(b, l.id).value, "/", l.primaryKey)
    && U32(b, l.id + 4).Some? && Means(b, U32(b, l.id + 4).value, "/", l.internalId)
    && U32(b, l.id + 8).Some? && Means(b, U32(b, l.id + 8).value, ".", l.providerId)
  }

  predicate IsAt(b: Blob, l: Location) {
    LocationAt(b, l.id).Some? && LocationAt(b, l.id).value.0 == l
  }

  /** Being readable at one's own id is being described by the bytes there. */
  lemma ReadIsDescribed(b: Blob, l: Location)
    ensures IsAt(b, l) <==> Described(b, l)
  {
    if U32(b, l.id).Some? && U32(b, l.id + 4).Some? && U32(b, l.id + 8).Some? {
      TextExact(b, U32(b, l.id).value, "/", l.primaryKey);
      TextExact(b, U32(b, l.id + 4).value, "/", l.internalId);
      TextExact(b, U32(b, l.id + 8).value, ".", l.providerId);
    }
  }

  ghost predicate AllRead(b: Blob, s: seq<Location>) {
    forall l | l in s :: IsAt(b, l)
  }

  function CostAt(b: Blob, id: nat): nat {
    match LocationAt(b, id)
    case Some((_, cost)) => cost
    case None => 0
  }

  /** The stored length of all texts of some locations. */
  function Costs(b: Blob, s: seq<Location>): nat {
    if s == [] then 0 else Costs(b, s[..|s| - 1]) + CostAt(b, s[|s| - 1].id)
  }

  lemma {:induction false} InsertCosts(b: Blob, s: seq<Location>, l: Location)
    ensures Costs(b, Insert(s, l)) == Costs(b, s) + CostAt(b, l.id)
  {
    if s == [] || s[|s| - 1].id < l.id {
      assert (s + [l])[..|s|] == s;
    } else {
      var more := Insert(s[..|s| - 1], l);
      InsertCosts(b, s[..|s| - 1], l);
      assert (more + [s[|s| - 1]])[..|more|] == more;
    }
  }

  predicate Within(part: seq<Location>, all: seq<Location>) {
    forall l | l in part :: l in all
  }

  /** A part of some locations has no more of anything. */
  lemma {:induction false} PartSums(b: Blob, part: seq<Location>, all: seq<Location>)
    requires Ascending(part) && Ascending(all) && Within(part, all)
    ensures |part| <= |all| && Links(part) <= Links(all) && Costs(b, part) <= Costs(b, all)
  {
    if part != [] {
      assert part[|part| - 1] in all;
      var init, last := all[..|all| - 1], all[|all| - 1];
      if part[|part| - 1] == last {
        PartInit(part, all);
        PartSums(b, part[..|part| - 1], init);
      } else {
        PartOfInit(part, all);
        PartSums(b, part, init);
      }
    }
  }

  lemma PartInit(part: seq<Location>, all: seq<Location>)
    requires Ascending(part) && Ascending(all) && Within(part, all)
    requires part != [] && all != [] && part[|part| - 1] == all[|all| - 1]
    ensures Within(part[..|part| - 1], all[..|all| - 1])
  {
    forall i | 0 <= i < |part| - 1 ensures part[i] in all[..|all| - 1] {
      assert part[i] in part;
      var k :| 0 <= k < |all| && all[k] == part[i];
      assert part[i].id < part[|part| - 1].id;
      assert all[..|all| - 1][k] == part[i];
    }
  }

  lemma PartOfInit(part: seq<Location>, all: seq<Location>)
    requires Ascending(part) && Ascending(all) && Within(part, all)
    requires part != [] && all != [] && part[|part| - 1] != all[|all| - 1]
    ensures Within(part, all[..|all| - 1])
  {
    var last := |part| - 1;
    assert part[last] in all;
    var j :| 0 <= j < |all| && all[j] == part[last];
    forall i | 0 <= i < |part| ensures part[i] in all[..|all| - 1] {
      assert part[i] in part;
      var k :| 0 <= k < |all| && all[k] == part[i];
      assert i < last ==> part[i].id < part[last].id;
      assert all[..|all| - 1][k] == part[i];
    }
  }

  // ---- The worklist ----------------------------------------------------------------------------

  /** Every root, and every dependency of what was parsed, is parsed or pending. */
  ghost predicate Frontier(roots: seq<nat>, found: seq<Location>, pending: seq<nat>) {
    && (forall id | id in roots :: id in IdsOf(found) || id in pending)
    && (forall l, d | l in found && d in l.dependencies :: d in IdsOf(found) || d in pending)
  }

  /** Nothing is parsed or pending that some closed set with the roots could do without. */
  ghost predicate Least(b: Blob, roots: seq<nat>, ids: set<nat>, pending: seq<nat>) {
    forall t | HasAll(roots, t) && Closed(b, t) :: ids <= t && HasAll(pending, t)
  }

  /** The ids reachable from the roots, as the least closed set that has them. */
  ghost predicate Reachable(b: Blob, roots: seq<nat>, ids: set<nat>) {
    HasAll(roots, ids) && Closed(b, ids) && forall t | HasAll(roots, t) && Closed(b, t) :: ids <= t
  }

  lemma SkipKnown(b: Blob, roots: seq<nat>, found: seq<Location>, pending: seq<nat>, id: nat)
    requires Frontier(roots, found, pending + [id]) && Least(b, roots, IdsOf(found), pending + [id])
    requires id in IdsOf(found)
    ensures Frontier(roots, found, pending) && Least(b, roots, IdsOf(found), pending)
  {
    forall t | HasAll(roots, t) && Closed(b, t) ensures IdsOf(found) <= t && HasAll(pending, t) {
      assert HasAll(pending + [id], t);
      assert forall x | x in pending :: x in pending + [id];
    }
  }

  lemma VisitNew(b: Blob, roots: seq<nat>, found: seq<Location>, pending: seq<nat>, l: Location)
    requires Frontier(roots, found, pending + [l.id]) && Least(b, roots, IdsOf(found), pending + [l.id])
    requires Ascending(found) && l.id !in IdsOf(found) && Dependencies(b, l.id) == Some(l.dependencies)
    ensures Frontier(roots, Insert(found, l), pending + l.dependencies)
    ensures Least(b, roots, IdsOf(Insert(found, l)), pending + l.dependencies)
  {
    InsertKeeps(found, l);
    forall t | HasAll(roots, t) && Closed(b, t)
      ensures IdsOf(Insert(found, l)) <= t && HasAll(pending + l.dependencies, t)
    {
      assert HasAll(pending + [l.id], t);
      assert l.id in pending + [l.id];
      assert forall x | x in pending :: x in pending + [l.id];
    }
  }

  lemma FoundCloses(b: Blob, roots: seq<nat>, found: seq<Location>, id: nat, dependencies: seq<nat>)
    requires Frontier(roots, found, []) && AllRead(b, found) && id in IdsOf(found)
    requires Dependencies(b, id) == Some(dependencies)
    ensures HasAll(dependencies, IdsOf(found))
  {
    IdsMembers(found, id);
    var i :| 0 <= i < |found| && found[i].id == id;
    assert found[i] in found && IsAt(b, found[i]);
    LocationParts(b, id, dependencies);
    assert found[i].dependencies == dependencies;
  }

  lemma FrontierCloses(b: Blob, roots: seq<nat>, found: seq<Location>)
    requires Frontier(roots, found, []) && AllRead(b, found)
    ensures HasAll(roots, IdsOf(found)) && Closed(b, IdsOf(found))
  {
    forall id, d | id in IdsOf(found) && Dependencies(b, id).Some? && d in Dependencies(b, id).value
      ensures d in IdsOf(found)
    {
      FoundCloses(b, roots, found, id, Dependencies(b, id).value);
    }
  }

  lemma Exhausted(b: Blob, roots: seq<nat>, found: seq<Location>)
    requires Frontier(roots, found, []) && Least(b, roots, IdsOf(found), []) && AllRead(b, found)
    ensures Reachable(b, roots, IdsOf(found))
  {
    FrontierCloses(b, roots, found);
    forall t | HasAll(roots, t) && Closed(b, t) ensures IdsOf(found) <= t {
      assert HasAll([], t);
    }
  }

  /** A location list that is what parsing from the roots has to find, within the bounds. */
  ghost predicate Readable(b: Blob, roots: seq<nat>, s: seq<Location>, budget: nat) {
    && Ascending(s) && AllRead(b, s) && Reachable(b, roots, IdsOf(s))
    && |s| <= MAX_LOCATIONS && |roots| + Links(s) <= MAX_LINKS && Costs(b, s) <= budget
  }

  lemma FindIn(b: Blob, s: seq<Location>, id: nat)
    requires AllRead(b, s) && id in IdsOf(s)
    ensures LocationAt(b, id).Some? && LocationAt(b, id).value.0 in s
  {
    IdsMembers(s, id);
    var i :| 0 <= i < |s| && s[i].id == id;
    assert s[i] in s && IsAt(b, s[i]);
  }

  /** Whatever the worklist comes to next is part of any result there could be, so its bounds hold. */
  lemma MustRead(b: Blob, roots: seq<nat>, found: seq<Location>, rest: seq<nat>, id: nat, s: seq<Location>, budget: nat)
    requires Ascending(found) && AllRead(b, found) && id !in IdsOf(found)
    requires Least(b, roots, IdsOf(found), rest + [id]) && Readable(b, roots, s, budget)
    ensures LocationAt(b, id).Some? && |found| + 1 <= |s| && Costs(b, found) + CostAt(b, id) <= Costs(b, s)
    ensures Links(found) + |LocationAt(b, id).value.0.dependencies| <= Links(s)
  {
    assert IdsOf(found) <= IdsOf(s) && HasAll(rest + [id], IdsOf(s));
    assert id in rest + [id];
    FindIn(b, s, id);
    var l := LocationAt(b, id).value.0;
    var more := Insert(found, l);
    InsertKeeps(found, l);
    InsertCosts(b, found, l);
    forall x | x in found ensures x in s {
      var i :| 0 <= i < |found| && found[i] == x;
      IdsMembers(found, x.id);
      FindIn(b, s, x.id);
    }
    PartSums(b, more, s);
  }

  lemma LastOf(s: seq<Location>, t: seq<Location>)
    requires Ascending(t) && (forall l | l in s :: l in t) && s != []
    ensures t != [] && s[|s| - 1].id <= t[|t| - 1].id
    ensures s[|s| - 1].id == t[|t| - 1].id ==> s[|s| - 1] == t[|t| - 1]
  {
    assert s[|s| - 1] in t;
    var i :| 0 <= i < |t| && t[i] == s[|s| - 1];
  }

  lemma {:induction false} SameLocations(s: seq<Location>, t: seq<Location>)
    requires Ascending(s) && Ascending(t) && (forall l :: l in s <==> l in t)
    ensures s == t
  {
    if t != [] {
      LastOf(t, s);
    }
    if s != [] {
      LastOf(s, t);
      PartInit(s, t);
      PartInit(t, s);
      SameLocations(s[..|s| - 1], t[..|t| - 1]);
    }
  }

  /** There is at most one such list. */
  lemma OnlyOne(b: Blob, roots: seq<nat>, s: seq<Location>, t: seq<Location>, budget: nat, other: nat)
    requires Readable(b, roots, s, budget) && Readable(b, roots, t, other)
    ensures s == t
  {
    assert IdsOf(s) == IdsOf(t);
    forall l ensures l in s <==> l in t {
      if l in s {
        Mine(b, s, t, l);
      }
      if l in t {
        Mine(b, t, s, l);
      }
    }
    SameLocations(s, t);
  }

  lemma Mine(b: Blob, s: seq<Location>, t: seq<Location>, l: Location)
    requires AllRead(b, s) && AllRead(b, t) && IdsOf(s) == IdsOf(t) && l in s
    ensures l in t
  {
    IdsMembers(s, l.id);
    var i :| 0 <= i < |s| && s[i] == l;
    FindIn(b, t, l.id);
  }

  // ---- Parsing ---------------------------------------------------------------------------------

  /** Where the type name and the text of a key object are. */
  function KindRef(b: Blob, key: nat): Option<nat> {
    match U32(b, key)
    case Some(ty) => U32(b, ty + 4)
    case None => None
  }

  function TextRef(b: Blob, key: nat): Option<nat> {
    match U32(b, key + 4)
    case Some(data) => U32(b, data)
    case None => None
  }

  ghost predicate NamedBy(b: Blob, key: nat, kind: string, name: Option<string>) {
    if kind == "System.String" then
      name.Some? && name.value != "" && TextRef(b, key).Some? && Means(b, TextRef(b, key).value, "/", name.value)
    else name.None?
  }

  /** The name a key row gives: only rows of type `System.String` have one. */
  ghost predicate RowNamed(b: Blob, key: nat, name: Option<string>) {
    if key == NONE then name.None?
    else
      match KindRef(b, key)
      case Some(ref) => exists kind :: Means(b, ref, ".", kind) && NamedBy(b, key, kind, name)
      case None => false
  }

  function Extend(keys: map<string, seq<nat>>, name: Option<string>, ids: seq<nat>): map<string, seq<nat>> {
    match name
    case Some(n) => keys[n := (if n in keys then keys[n] else []) + ids]
    case None => keys
  }

  /** The key index over the first rows: the ids of all rows with one name, in row order. */
  function Indexed(b: Blob, rows: seq<Byte>, names: seq<Option<string>>): map<string, seq<nat>>
    requires 8 * |names| <= |rows|
  {
    if names == [] then map[]
    else
      var n := |names| - 1;
      Extend(Indexed(b, rows, names[..n]), names[n], match RowIds(b, rows, n) case Some(ids) => ids case None => [])
  }

  /** The name a key row gives, and the stored length of the texts read for it. */
  function Naming(b: Blob, key: nat): Option<(Option<string>, nat)> {
    if key == NONE then Some((None, 0))
    else
      match KindRef(b, key)
      case None => None
      case Some(kindRef) =>
        match Text(b, kindRef, ".")
        case None => None
        case Some((kind, x)) =>
          if kind != "System.String" then Some((None, x))
          else
            match TextRef(b, key)
            case None => None
            case Some(textRef) =>
              match Text(b, textRef, "/")
              case None => None
              case Some((text, y)) => if text == "" then None else Some((Some(text), x + y))
  }

  lemma NamingMeans(b: Blob, key: nat)
    requires Naming(b, key).Some?
    ensures RowNamed(b, key, Naming(b, key).value.0)
  {
    if key != NONE {
      var kind := Text(b, KindRef(b, key).value, ".").value.0;
      TextExact(b, KindRef(b, key).value, ".", kind);
      if kind == "System.String" {
        TextExact(b, TextRef(b, key).value, "/", Text(b, TextRef(b, key).value, "/").value.0);
      }
      assert NamedBy(b, key, kind, Naming(b, key).value.0);
    }
  }

  lemma MeansNaming(b: Blob, key: nat, name: Option<string>)
    requires RowNamed(b, key, name)
    ensures Naming(b, key).Some? && Naming(b, key).value.0 == name
  {
    if key != NONE {
      var kind :| Means(b, KindRef(b, key).value, ".", kind) && NamedBy(b, key, kind, name);
      TextExact(b, KindRef(b, key).value, ".", kind);
      if kind == "System.String" {
        TextExact(b, TextRef(b, key).value, "/", name.value);
      }
    }
  }

  /** A row can be read exactly when it has a name, or rightly none, and that is what is read. */
  lemma NamingExact(b: Blob, key: nat, name: Option<string>)
    ensures Naming(b, key).Some? && Naming(b, key).value.0 == name <==> RowNamed(b, key, name)
  {
    if Naming(b, key).Some? {
      NamingMeans(b, key);
    }
    if RowNamed(b, key, name) {
      MeansNaming(b, key, name);
    }
  }

  method KeyName(r: Reader, key: nat) returns (name: Option<Option<string>>)
    modifies r
    ensures name.Some? <==> Naming(r.blob, key).Some? && Naming(r.blob, key).value.1 <= old(r.budget)
    ensures name.Some? ==>
            name.value == Naming(r.blob, key).value.0 && r.budget == old(r.budget) - Naming(r.blob, key).value.1
    ensures r.budget <= old(r.budget)
  {
    if key == NONE {
      return Some(None);
    }
    var kindRef := KindRef(r.blob, key);
    if kindRef.None? {
      return None;
    }
    var kind := r.String(kindRef.value, ".");
    if kind.None? {
      return None;
    }
    if kind.value != "System.String" {
      return Some(None);
    }
    var textRef := TextRef(r.blob, key);
    if textRef.None? {
      return None;
    }
    var text := r.String(textRef.value, "/");
    if text.None? || text.value == "" {
      return None;
    }
    return Some(text);
  }

  /** The names of the first `n` rows and what reading them takes. */
  function Names(b: Blob, rows: seq<Byte>, n: nat): (r: Option<(seq<Option<string>>, nat)>)
    requires 8 * n <= |rows|
    ensures r.Some? ==> |r.value.0| == n
  {
    if n == 0 then Some(([], 0))
    else
      match (Names(b, rows, n - 1), Naming(b, RowObject(rows, n - 1)))
      case (Some((names, cost)), Some((name, more))) => Some((names + [name], cost + more))
      case _ => None
  }

  lemma NamesLast(b: Blob, rows: seq<Byte>, n: nat)
    requires 0 < n && 8 * n <= |rows| && Names(b, rows, n).Some?
    ensures Names(b, rows, n - 1).Some? && Naming(b, RowObject(rows, n - 1)).Some?
    ensures Names(b, rows, n).value.0 == Names(b, rows, n - 1).value.0 + [Naming(b, RowObject(rows, n - 1)).value.0]
    ensures Names(b, rows, n).value.1 == Names(b, rows, n - 1).value.1 + Naming(b, RowObject(rows, n - 1)).value.1
  {
  }

  lemma {:induction false} NamesPrefix(b: Blob, rows: seq<Byte>, i: nat, n: nat)
    requires i <= n && 8 * n <= |rows| && Names(b, rows, n).Some?
    ensures Names(b, rows, i).Some? && Names(b, rows, i).value.1 <= Names(b, rows, n).value.1
  {
    if i < n {
      NamesLast(b, rows, n);
      NamesPrefix(b, rows, i, n - 1);
    }
  }

  lemma {:induction false} JoinedGrows(lists: nat -> seq<nat>, i: nat, n: nat)
    requires i <= n
    ensures |Joined(lists, i)| <= |Joined(lists, n)|
  {
    if i < n {
      JoinedGrows(lists, i, n - 1);
    }
  }

  lemma {:induction false} NamesMean(b: Blob, rows: seq<Byte>, n: nat)
    requires 8 * n <= |rows| && Names(b, rows, n).Some?
    ensures RowsNamed(b, rows, Names(b, rows, n).value.0)
  {
    if n > 0 {
      NamesLast(b, rows, n);
      NamesMean(b, rows, n - 1);
      NamingMeans(b, RowObject(rows, n - 1));
      RowsMore(b, rows, Names(b, rows, n - 1).value.0, Naming(b, RowObject(rows, n - 1)).value.0);
    }
  }

  /** Every row lists its ids, and they are not too many. */
  predicate Listed(b: Blob, rows: seq<Byte>, n: nat)
    requires 8 * n <= |rows|
  {
    (forall i | 0 <= i < n :: RowIds(b, rows, i).Some?) && |TableIds(b, rows, n)| <= MAX_LINKS
  }

  ghost predicate RowsNamed(b: Blob, rows: seq<Byte>, names: seq<Option<string>>) {
    8 * |names| <= |rows| && forall i | 0 <= i < |names| :: RowNamed(b, RowObject(rows, i), names[i])
  }

  lemma RowsMore(b: Blob, rows: seq<Byte>, names: seq<Option<string>>, name: Option<string>)
    requires RowsNamed(b, rows, names) && 8 * |names| + 8 <= |rows|
    requires RowNamed(b, RowObject(rows, |names|), name)
    ensures RowsNamed(b, rows, names + [name])
  {
    var more := names + [name];
    forall i | 0 <= i < |more| ensures RowNamed(b, RowObject(rows, i), more[i]) {
      assert more[i] == if i < |names| then names[i] else name;
    }
  }

  lemma IndexMore(b: Blob, rows: seq<Byte>, names: seq<Option<string>>, name: Option<string>, ids: seq<nat>)
    requires 8 * |names| + 8 <= |rows| && RowIds(b, rows, |names|) == Some(ids)
    ensures Indexed(b, rows, names + [name]) == Extend(Indexed(b, rows, names), name, ids)
  {
    assert (names + [name])[..|names|] == names;
  }

  /** What the loop over the rows has after `i` of them. */
  ghost predicate KeysSoFar(b: Blob, rows: seq<Byte>, i: nat, keys: map<string, seq<nat>>, pending: seq<nat>,
                            spent: nat)
    requires 8 * i <= |rows|
  {
    && Listed(b, rows, i) && pending == TableIds(b, rows, i)
    && Names(b, rows, i).Some? && spent == Names(b, rows, i).value.1
    && keys == Indexed(b, rows, Names(b, rows, i).value.0)
  }

  lemma KeysMore(b: Blob, rows: seq<Byte>, i: nat, keys: map<string, seq<nat>>, pending: seq<nat>, spent: nat)
    requires 8 * i + 8 <= |rows| && KeysSoFar(b, rows, i, keys, pending, spent)
    ensures var ids, name := RowIds(b, rows, i), Naming(b, RowObject(rows, i));
            ids.Some? && name.Some? && |pending| + |ids.value| <= MAX_LINKS ==>
              KeysSoFar(b, rows, i + 1, Extend(keys, name.value.0, ids.value), pending + ids.value,
                  spent + name.value.1)
  {
    var ids, name := RowIds(b, rows, i), Naming(b, RowObject(rows, i));
    if ids.Some? && name.Some? && |pending| + |ids.value| <= MAX_LINKS {
      IndexMore(b, rows, Names(b, rows, i).value.0, name.value.0, ids.value);
    }
  }

  lemma IdsStop(b: Blob, rows: seq<Byte>, i: nat, n: nat)
    requires i < n && 8 * n <= |rows| && Listed(b, rows, n)
    ensures RowIds(b, rows, i).Some? && |TableIds(b, rows, i)| + |RowIds(b, rows, i).value| <= MAX_LINKS
  {
    JoinedGrows(RowLists(b, rows), i + 1, n);
  }

  /** One row, unless it makes too many ids. */
  method ParseRow(r: Reader, rows: seq<Byte>, i: nat, total: nat) returns (row: Option<(seq<nat>, Option<string>)>)
    requires 8 * i + 8 <= |rows|
    modifies r
    ensures var ids, name := RowIds(r.blob, rows, i), Naming(r.blob, RowObject(rows, i));
            && (row.Some? <==>
                  && ids.Some? && total + |ids.value| <= MAX_LINKS
                  && name.Some? && name.value.1 <= old(r.budget))
            && (row.Some? ==> row.value == (ids.value, name.value.0) && r.budget == old(r.budget) - name.value.1)
  {
    var ids := RowIds(r.blob, rows, i);
    if ids.None? || total + |ids.value| > MAX_LINKS {
      return None;
    }
    var name := KeyName(r, RowObject(rows, i));
    return if name.None? then None else Some((ids.value, name.value));
  }

  lemma KeysNone(b: Blob, rows: seq<Byte>)
    ensures KeysSoFar(b, rows, 0, map[], [], 0)
  {
  }

  /** The key table can be read, and this is what it costs. */
  ghost predicate TableReadable(b: Blob, rows: seq<Byte>, n: nat, budget: nat)
    requires 8 * n <= |rows|
  {
    Listed(b, rows, n) && Names(b, rows, n).Some? && Names(b, rows, n).value.1 <= budget
  }

  /** A row that cannot be taken leaves no way to take them all. */
  lemma KeysStop(b: Blob, rows: seq<Byte>, i: nat, n: nat, pending: seq<nat>, spent: nat, keys: map<string, seq<nat>>,
                 budget: nat)
    requires i < n && 8 * n <= |rows| && KeysSoFar(b, rows, i, keys, pending, spent)
    ensures var ids, name := RowIds(b, rows, i), Naming(b, RowObject(rows, i));
            TableReadable(b, rows, n, budget) ==>
              ids.Some? && |pending| + |ids.value| <= MAX_LINKS && name.Some? && spent + name.value.1 <= budget
  {
    if Listed(b, rows, n) {
      IdsStop(b, rows, i, n);
    }
    if Names(b, rows, n).Some? {
      NamesPrefix(b, rows, i + 1, n);
    }
  }

  /** The key table: the ids to start from, and the ids of every string key. */
  method ParseKeys(r: Reader, rows: seq<Byte>) returns (ok: bool, keys: map<string, seq<nat>>, pending: seq<nat>)
    requires |rows| % 8 == 0
    modifies r
    ensures ok <==> TableReadable(r.blob, rows, |rows| / 8, old(r.budget))
    ensures ok ==> r.budget <= old(r.budget)
    ensures ok ==> KeysSoFar(r.blob, rows, |rows| / 8, keys, pending, old(r.budget) - r.budget)
  {
    ok, keys, pending := true, map[], [];
    ghost var n, spent: nat := |rows| / 8, 0;
    KeysNone(r.blob, rows);
    for i := 0 to |rows| / 8
      invariant ok && KeysSoFar(r.blob, rows, i, keys, pending, spent) && r.budget == old(r.budget) - spent
    {
      KeysStop(r.blob, rows, i, n, pending, spent, keys, old(r.budget));
      KeysMore(r.blob, rows, i, keys, pending, spent);
      var row := ParseRow(r, rows, i, |pending|);
      if row.None? {
        return false, keys, pending;
      }
      spent := old(r.budget) - r.budget;
      keys := Extend(keys, row.value.1, row.value.0);
      pending := pending + row.value.0;
    }
  }

  method ReadText(r: Reader, offset: nat, separator: string) returns (t: Option<string>)
    modifies r
    ensures var text := TextAt(r.blob, offset, separator);
            && (t.Some? <==> text.Some? && text.value.1 <= old(r.budget))
            && (t.Some? ==> t.value == text.value.0 && r.budget == old(r.budget) - text.value.1)
  {
    var reference := U32(r.blob, offset);
    if reference.None? {
      return None;
    }
    t := r.String(reference.value, separator);
  }

  /** A location is put together from its dependencies and three texts. */
  lemma LocationParts(b: Blob, id: nat, dependencies: seq<nat>)
    requires Dependencies(b, id) == Some(dependencies)
    ensures var (x, y, z) := (TextAt(b, id, "/"), TextAt(b, id + 4, "/"), TextAt(b, id + 8, "."));
            && (LocationAt(b, id).Some? <==> x.Some? && y.Some? && z.Some?)
            && (x.Some? && y.Some? && z.Some? ==>
                  && LocationAt(b, id).value.0 == Location(id, x.value.0, y.value.0, z.value.0, dependencies)
                  && CostAt(b, id) == x.value.1 + y.value.1 + z.value.1)
  {
  }

  method ReadLocation(r: Reader, id: nat, dependencies: seq<nat>) returns (l: Option<Location>)
    requires Dependencies(r.blob, id) == Some(dependencies)
    modifies r
    ensures l.Some? <==> LocationAt(r.blob, id).Some? && CostAt(r.blob, id) <= old(r.budget)
    ensures l.Some? ==> l.value == LocationAt(r.blob, id).value.0 && r.budget == old(r.budget) - CostAt(r.blob, id)
  {
    LocationParts(r.blob, id, dependencies);
    var primary := ReadText(r, id, "/");
    if primary.None? {
      return None;
    }
    var internal := ReadText(r, id + 4, "/");
    if internal.None? {
      return None;
    }
    var provider := ReadText(r, id + 8, ".");
    return if provider.None? then None
           else Some(Location(id, primary.value, internal.value, provider.value, dependencies));
  }

  /** One new location, unless a bound is exceeded. */
  method Visit(r: Reader, id: nat, found: seq<Location>, links: nat) returns (l: Option<Location>)
    modifies r
    ensures l.Some? <==>
              && |found| < MAX_LOCATIONS && LocationAt(r.blob, id).Some? && CostAt(r.blob, id) <= old(r.budget)
              && links + |LocationAt(r.blob, id).value.0.dependencies| <= MAX_LINKS
    ensures l.Some? ==> l.value == LocationAt(r.blob, id).value.0 && r.budget == old(r.budget) - CostAt(r.blob, id)
  {
    var dependencies := Dependencies(r.blob, id);
    if |found| >= MAX_LOCATIONS || dependencies.None? || links + |dependencies.value| > MAX_LINKS {
      return None;
    }
    l := ReadLocation(r, id, dependencies.value);
  }

  /**
   The location graph: terminates on any bytes, cyclic or not. It succeeds exactly when the ids
   reachable from the roots are locations within the bounds on locations, links and text, and then
   has exactly those, in ascending order.
   */
  method ParseLocations(r: Reader, roots: seq<nat>) returns (ok: bool, found: seq<Location>)
    requires |roots| <= MAX_LINKS
    modifies r
    ensures ok ==> Readable(r.blob, roots, found, old(r.budget)) && r.budget == old(r.budget) - Costs(r.blob, found)
    ensures !ok ==> forall s :: !Readable(r.blob, roots, s, old(r.budget))
  {
    ok, found := true, [];
    var pending, links := roots, |roots|;
    ghost var b := r.blob;
    while pending != []
      invariant ok && Ascending(found) && AllRead(b, found)
      invariant Frontier(roots, found, pending) && Least(b, roots, IdsOf(found), pending)
      invariant |found| <= MAX_LOCATIONS && links == |roots| + Links(found) <= MAX_LINKS
      invariant r.budget == old(r.budget) - Costs(b, found)
      decreases MAX_LOCATIONS - |found|, |pending|
    {
      var rest, id := pending[..|pending| - 1], pending[|pending| - 1];
      assert pending == rest + [id];
      pending := rest;
      if id in IdsOf(found) {
        SkipKnown(b, roots, found, rest, id);
        continue;
      }
      var l := Visit(r, id, found, links);
      if l.None? {
        forall s ensures !Readable(b, roots, s, old(r.budget)) {
          if Readable(b, roots, s, old(r.budget)) {
            MustRead(b, roots, found, rest, id, s, old(r.budget));
          }
        }
        return false, found;
      }
      VisitNew(b, roots, found, rest, l.value);
      InsertKeeps(found, l.value);
      InsertCosts(b, found, l.value);
      links := links + |l.value.dependencies|;
      pending := rest + l.value.dependencies;
      found := Insert(found, l.value);
    }
    Exhausted(b, roots, found);
  }

  predicate Header(b: Blob) {
    |b.bytes| <= MAX_FILE && U32(b, 0) == Some(MAGIC) && U32(b, 4) == Some(2)
  }

  /** The names in the key table and what they cost, when every row can be read. */
  function Keyed(b: Blob): Option<(seq<Option<string>>, nat)> {
    match Table(b)
    case None => None
    case Some(rows) => if Listed(b, rows, |rows| / 8) then Names(b, rows, |rows| / 8) else None
  }

  /**
   What a parsed catalog is, given the bytes: the index the key table gives, the locations reachable
   from it, and not more locations, links and text than the bounds allow.
   */
  ghost predicate Parsed(b: Blob, g: Graph) {
    && Header(b) && Keyed(b).Some? && Keyed(b).value.1 <= MAX_FILE
    && g.keys == Indexed(b, Table(b).value, Keyed(b).value.0)
    && g.locations != [] && Readable(b, Roots(b), g.locations, MAX_FILE - Keyed(b).value.1)
  }

  /** Parsing succeeds exactly with what a parsed catalog is, which is at most one. */
  method Parse(b: Blob) returns (g: Result<Graph, CatalogError>)
    ensures g == Failure(TooLarge) <==> |b.bytes| > MAX_FILE
    ensures g.Failure? ==> g.error == TooLarge || g.error == Malformed
    ensures forall h :: g == Success(h) <==> Parsed(b, h)
  {
    if |b.bytes| > MAX_FILE {
      return Failure(TooLarge);
    }
    var r := new Reader(b);
    var rows := Table(b);
    if U32(b, 0) != Some(MAGIC) || U32(b, 4) != Some(2) || rows.None? {
      return Failure(Malformed);
    }
    var ok, keys, pending := ParseKeys(r, rows.value);
    if !ok {
      return Failure(Malformed);
    }
    ghost var budget: nat := r.budget;
    var found;
    ok, found := ParseLocations(r, pending);
    forall h | Parsed(b, h) ensures ok && h == Graph(found, keys) {
      assert Readable(b, pending, h.locations, budget);
      if ok {
        OnlyOne(b, pending, h.locations, found, budget, budget);
      }
    }
    if !ok || found == [] {
      return Failure(Malformed);
    }
    return Success(Graph(found, keys));
  }

  // ---- Selecting -------------------------------------------------------------------------------

  /** Keys to take (all, if empty), and whether a location passes the include and exclude patterns. */
  datatype Selection = Selection(valid: bool, keys: seq<string>, passes: Location -> bool)

  function Find(s: seq<Location>, id: nat): (r: Option<Location>)
    ensures r.Some? <==> id in IdsOf(s)
    ensures r.Some? ==> r.value in s && r.value.id == id
  {
    if s == [] then None
    else if s[|s| - 1].id == id then Some(s[|s| - 1])
    else Find(s[..|s| - 1], id)
  }

  /** The ids a selection starts from, before the patterns. */
  function Asked(g: Graph, keys: seq<string>): Option<seq<nat>> {
    if keys == [] then Some([])
    else
      var key := keys[|keys| - 1];
      match Asked(g, keys[..|keys| - 1])
      case None => None
      case Some(ids) => if key !in g.keys || g.keys[key] == [] then None else Some(ids + g.keys[key])
  }

  function AllIds(s: seq<Location>): (ids: seq<nat>)
    ensures |ids| == |s| && forall i | 0 <= i < |s| :: ids[i] == s[i].id
  {
    seq(|s|, i requires 0 <= i < |s| => s[i].id)
  }

  function Start(g: Graph, sel: Selection): Option<seq<nat>> {
    if sel.keys == [] then Some(AllIds(g.locations)) else Asked(g, sel.keys)
  }

  /** The roots that pass the patterns, in order. */
  function Matching(s: seq<Location>, sel: Selection, ids: seq<nat>): seq<nat> {
    if ids == [] then []
    else
      var id := ids[|ids| - 1];
      Matching(s, sel, ids[..|ids| - 1]) +
      match Find(s, id) case Some(l) => (if sel.passes(l) then [id] else []) case None => []
  }

  /** A set of ids that no dependency of a location of `s` leaves. */
  ghost predicate ClosedIn(s: seq<Location>, t: set<nat>) {
    forall l, d | l in s && l.id in t && d in l.dependencies :: d in t
  }

  /** The least set with the given ids that no dependency leaves. */
  ghost predicate Closure(s: seq<Location>, ids: seq<nat>, t: set<nat>) {
    HasAll(ids, t) && ClosedIn(s, t) && forall u | HasAll(ids, u) && ClosedIn(s, u) :: t <= u
  }

  /** No id is dangling: neither in the key index nor among the dependencies. */
  ghost predicate Sound(g: Graph) {
    && Ascending(g.locations)
    && (forall l, d | l in g.locations && d in l.dependencies :: d in IdsOf(g.locations))
    && (forall key | key in g.keys :: HasAll(g.keys[key], IdsOf(g.locations)))
  }

  method MatchRoots(s: seq<Location>, sel: Selection, ids: seq<nat>) returns (pending: Option<seq<nat>>)
    ensures pending.None? <==> !HasAll(ids, IdsOf(s))
    ensures pending.Some? ==> pending.value == Matching(s, sel, ids)
  {
    var result := [];
    for i := 0 to |ids|
      invariant HasAll(ids[..i], IdsOf(s)) && result == Matching(s, sel, ids[..i])
    {
      assert ids[..i + 1][..i] == ids[..i];
      var l := Find(s, ids[i]);
      if l.None? {
        assert ids[i] in ids;
        return None;
      }
      result := if sel.passes(l.value) then result + [ids[i]] else result;
    }
    assert ids[..|ids|] == ids;
    return Some(result);
  }

  method AskedIds(g: Graph, keys: seq<string>) returns (ids: Option<seq<nat>>)
    ensures ids == Asked(g, keys)
  {
    var result := [];
    for i := 0 to |keys|
      invariant Asked(g, keys[..i]) == Some(result)
    {
      assert keys[..i + 1][..i] == keys[..i];
      var key := keys[i];
      if key !in g.keys || g.keys[key] == [] {
        AskedFails(g, keys, i + 1);
        return None;
      }
      result := result + g.keys[key];
    }
    assert keys[..|keys|] == keys;
    return Some(result);
  }

  lemma {:induction false} AskedFails(g: Graph, keys: seq<string>, i: nat)
    requires i <= |keys| && Asked(g, keys[..i]).None?
    ensures Asked(g, keys).None?
  {
    if i < |keys| {
      assert keys[..|keys| - 1][..i] == keys[..i];
      AskedFails(g, keys[..|keys| - 1], i);
    } else {
      assert keys[..i] == keys;
    }
  }

  /** What the selection worklist knows: reached ids, what is pending, and that both are needed. */
  ghost predicate Walked(s: seq<Location>, start: seq<nat>, selected: set<nat>, pending: seq<nat>) {
    && selected <= IdsOf(s)
    && (forall id | id in start :: id in selected || id in pending)
    && (forall l, d | l in s && l.id in selected && d in l.dependencies :: d in selected || d in pending)
    && (forall u | HasAll(start, u) && ClosedIn(s, u) :: selected <= u && HasAll(pending, u))
  }

  lemma WalkMore(s: seq<Location>, start: seq<nat>, selected: set<nat>, pending: seq<nat>, l: Location)
    requires Ascending(s) && l in s && Walked(s, start, selected, pending + [l.id])
    ensures if l.id in selected then Walked(s, start, selected, pending)
            else Walked(s, start, selected + {l.id}, pending + l.dependencies)
  {
    IdsMembers(s, l.id);
    var i :| 0 <= i < |s| && s[i] == l;
    forall m | m in s && m.id == l.id ensures m == l {
      var j :| 0 <= j < |s| && s[j] == m;
    }
    forall u | HasAll(start, u) && ClosedIn(s, u) ensures HasAll(pending, u) && l.id in u {
      assert HasAll(pending + [l.id], u);
      assert l.id in pending + [l.id];
      assert forall x | x in pending :: x in pending + [l.id];
    }
  }

  lemma SubsetCount(a: set<nat>, b: set<nat>)
    requires a <= b
    ensures |a| <= |b| && (a != b ==> |a| < |b|)
  {
    assert b == a + (b - a);
    if a != b {
      assert b - a != {};
    }
  }

  /** Follows dependencies until nothing new is found; an unknown id is an error. */
  method Close(s: seq<Location>, start: seq<nat>) returns (selected: Option<set<nat>>)
    requires Ascending(s)
    ensures selected.Some? ==> selected.value <= IdsOf(s) && Closure(s, start, selected.value)
    ensures selected.None? ==> forall t | HasAll(start, t) && ClosedIn(s, t) :: !(t <= IdsOf(s))
  {
    var chosen: set<nat> := {};
    var pending := start;
    while pending != []
      invariant Walked(s, start, chosen, pending)
      decreases |IdsOf(s)| - |chosen|, |pending|
    {
      var rest, id := pending[..|pending| - 1], pending[|pending| - 1];
      assert pending == rest + [id];
      var l := Find(s, id);
      if l.None? {
        forall t | HasAll(start, t) && ClosedIn(s, t) ensures !(t <= IdsOf(s)) {
          assert HasAll(rest + [id], t) && id in rest + [id];
        }
        return None;
      }
      WalkMore(s, start, chosen, rest, l.value);
      pending := rest;
      if id !in chosen {
        SubsetCount(chosen + {id}, IdsOf(s));
        SubsetCount(chosen, chosen + {id});
        chosen := chosen + {id};
        pending := rest + l.value.dependencies;
      }
    }
    return Some(chosen);
  }

  function IsSelected(ids: set<nat>): Location -> bool {
    (l: Location) => l.id in ids
  }

  /** What a selection keeps: the least closed set of ids with every matching root, in catalog order. */
  ghost predicate Selected(g: Graph, sel: Selection, kept: seq<Location>) {
    exists ids ::
      && Start(g, sel).Some? && ids <= IdsOf(g.locations)
      && Closure(g.locations, Matching(g.locations, sel, Start(g, sel).value), ids)
      && kept == Filter(g.locations, IsSelected(ids))
  }

  method Select(g: Graph, sel: Selection) returns (r: Result<seq<Location>, CatalogError>)
    requires Ascending(g.locations)
    ensures r.Success? ==> forall kept :: kept == r.value <==> Selected(g, sel, kept)
    ensures r.Success? <==>
              && sel.valid && Start(g, sel).Some? && HasAll(Start(g, sel).value, IdsOf(g.locations))
              && Matching(g.locations, sel, Start(g, sel).value) != []
              && exists kept :: Selected(g, sel, kept)
    ensures r == Failure(BadSelection) <==>
            || !sel.valid || Start(g, sel).None?
            || (HasAll(Start(g, sel).value, IdsOf(g.locations)) &&
                Matching(g.locations, sel, Start(g, sel).value) == [])
    ensures r.Failure? ==> r.error == BadSelection || (r.error == Malformed && !Sound(g))
  {
    if !sel.valid {
      return Failure(BadSelection);
    }
    var start;
    if sel.keys == [] {
      start := Some(AllIds(g.locations));
    } else {
      start := AskedIds(g, sel.keys);
    }
    if start.None? {
      return Failure(BadSelection);
    }
    StartSound(g, sel);
    var roots := MatchRoots(g.locations, sel, start.value);
    if roots.None? {
      return Failure(Malformed);
    }
    if roots.value == [] {
      return Failure(BadSelection);
    }
    MatchingKnown(g.locations, sel, start.value);
    var ids := Close(g.locations, roots.value);
    if ids.None? {
      assert forall kept :: !Selected(g, sel, kept);
      return Failure(Malformed);
    }
    var kept := Filter(g.locations, IsSelected(ids.value));
    SelectedOnce(g, sel, ids.value);
    assert Selected(g, sel, kept);
    return Success(kept);
  }

  /** There is only one least closed set, so only one selection. */
  lemma SelectedOnce(g: Graph, sel: Selection, ids: set<nat>)
    requires Start(g, sel).Some? && ids <= IdsOf(g.locations)
    requires Closure(g.locations, Matching(g.locations, sel, Start(g, sel).value), ids)
    ensures forall kept :: kept == Filter(g.locations, IsSelected(ids)) <==> Selected(g, sel, kept)
  {
    forall kept | Selected(g, sel, kept) ensures kept == Filter(g.locations, IsSelected(ids)) {
      var other :|
        && other <= IdsOf(g.locations)
        && Closure(g.locations, Matching(g.locations, sel, Start(g, sel).value), other)
        && kept == Filter(g.locations, IsSelected(other));
      assert other == ids;
    }
  }

  lemma StartSound(g: Graph, sel: Selection)
    requires Start(g, sel).Some?
    ensures Sound(g) ==> HasAll(Start(g, sel).value, IdsOf(g.locations)) && ClosedIn(g.locations, IdsOf(g.locations))
  {
    if Sound(g) {
      if sel.keys == [] {
        forall i | 0 <= i < |g.locations| ensures g.locations[i].id in IdsOf(g.locations) {
          IdsMembers(g.locations, g.locations[i].id);
        }
      } else {
        AskedSound(g, sel.keys);
      }
    }
  }

  lemma {:induction false} AskedSound(g: Graph, keys: seq<string>)
    requires Sound(g) && Asked(g, keys).Some?
    ensures HasAll(Asked(g, keys).value, IdsOf(g.locations))
  {
    if keys != [] {
      AskedSound(g, keys[..|keys| - 1]);
    }
  }

  lemma {:induction false} MatchingKnown(s: seq<Location>, sel: Selection, ids: seq<nat>)
    ensures HasAll(Matching(s, sel, ids), IdsOf(s))
  {
    if ids != [] {
      MatchingKnown(s, sel, ids[..|ids| - 1]);
    }
  }

  // ---- A parsed catalog has no dangling ids ----------------------------------------------------

  lemma {:induction false} IndexedFromTable(b: Blob, rows: seq<Byte>, names: seq<Option<string>>)
    requires 8 * |names| <= |rows|
    ensures forall key | key in Indexed(b, rows, names) :: forall id | id in Indexed(b, rows, names)[key] ::
            id in TableIds(b, rows, |names|)
  {
    if names != [] {
      IndexedFromTable(b, rows, names[..|names| - 1]);
    }
  }

  /** What the parsed catalog says is what the bytes mean. */
  lemma ParsedMeans(b: Blob, g: Graph)
    requires Parsed(b, g)
    ensures forall l | l in g.locations :: Described(b, l)
    ensures RowsNamed(b, Table(b).value, Keyed(b).value.0)
  {
    var rows := Table(b).value;
    NamesMean(b, rows, |rows| / 8);
    forall l | l in g.locations ensures Described(b, l) {
      ReadIsDescribed(b, l);
    }
  }

  /** So a selection of a parsed catalog never reports a malformed catalog. */
  lemma ParsedIsSound(b: Blob, g: Graph)
    requires Parsed(b, g)
    ensures Sound(g)
  {
    var rows := Table(b).value;
    IndexedFromTable(b, rows, Keyed(b).value.0);
    forall l, d | l in g.locations && d in l.dependencies ensures d in IdsOf(g.locations) {
      assert IsAt(b, l);
      var i :| 0 <= i < |g.locations| && g.locations[i] == l;
      IdsMembers(g.locations, l.id);
    }
  }
}

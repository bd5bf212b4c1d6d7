/**
 * `EventCRUD`: reconciling scraped events into the catalog, and the sweep of
 * stale events, over an in-memory catalog.
 *
 * The catalog is two tables, events and interests. A row's id is its
 * position. Interest rows are never removed, so those ids are stable, and an
 * event refers to its interests by id. The description hash
 * (`get_description_hash`, MD5 of the text) is a parameter: some fixed
 * function from strings to strings, nothing more is assumed about it.
 */
module EventRepository {
  import opened Wrappers
  import opened Sql
  import opened EventsService
  import opened EventScraper

  /** A row of `interests`: its name and, for a tag, the id of its category. */
  datatype Interest = Interest(name: string, parent: Option<nat>)

  /** A row of `events` with its showtimes, its interest ids and how many feedback records point at it. */
  datatype Event = Event(
    title: string,
    description: string,
    hash: string,
    isActive: bool,
    slots: seq<Slot>,
    interests: set<nat>,
    feedback: nat)

  datatype Catalog = Catalog(events: seq<Event>, interests: seq<Interest>)

  /** The unique constraint `uq_event_title_description_hash`. */
  predicate UniqueKeys(events: seq<Event>) {
    forall i, j :: 0 <= i < |events| && 0 <= j < |events| && events[i].title == events[j].title && events[i].hash == events[j].hash ==> i == j
  }

  /** The unique constraint on `interests.name`. */
  predicate UniqueNames(interests: seq<Interest>) {
    forall i, j :: 0 <= i < |interests| && 0 <= j < |interests| && interests[i].name == interests[j].name ==> i == j
  }

  /** The two constraints the database keeps on the catalog. */
  predicate Valid(c: Catalog) {
    UniqueKeys(c.events) && UniqueNames(c.interests)
  }

  predicate HasKey(events: seq<Event>, title: string, hash: string) {
    exists j :: 0 <= j < |events| && events[j].title == title && events[j].hash == hash
  }

  predicate Taken(interests: seq<Interest>, name: string) {
    exists j :: 0 <= j < |interests| && interests[j].name == name
  }

  function Elements(s: seq<nat>): set<nat> {
    set x | x in s
  }

  // ------------------------------------------------------------ queries

  function KeyMatches(events: seq<Event>, title: string, hash: string): seq<nat> {
    Matching(events, (e: Event) => e.title == title && e.hash == hash)
  }

  function TitleMatches(events: seq<Event>, title: string): seq<nat> {
    Matching(events, (e: Event) => e.title == title)
  }

  function NameMatches(interests: seq<Interest>, name: string): seq<nat> {
    Matching(interests, (x: Interest) => x.name == name)
  }

  /** Under the unique constraint the row holding a `(title, hash)` key is all its query finds. */
  lemma KeyHolder(events: seq<Event>, title: string, hash: string, i: nat)
    requires UniqueKeys(events)
    requires i < |events| && events[i].title == title && events[i].hash == hash
    ensures KeyMatches(events, title, hash) == [i]
  {
    MatchingSingle(events, (e: Event) => e.title == title && e.hash == hash, i);
  }

  /** Under the unique constraint the interest holding a name is all a query by that name finds. */
  lemma NameHolder(interests: seq<Interest>, name: string, i: nat)
    requires UniqueNames(interests)
    requires i < |interests| && interests[i].name == name
    ensures NameMatches(interests, name) == [i]
  {
    MatchingSingle(interests, (x: Interest) => x.name == name, i);
  }

  /**
   * The event `_add_or_update_event` merges into: the row with this title and
   * description hash, else, for a non-empty description only, the row with
   * this title. Several rows with the title make `one_or_none` raise.
   */
  function Lookup(events: seq<Event>, title: string, description: string, hash: string): (r: Result<Option<nat>, DbError>)
    ensures r.Success? && r.value.Some? ==> r.value.value < |events| && events[r.value.value].title == title
  {
    var exact :- OneOrNone(KeyMatches(events, title, hash));
    if exact.None? && description != "" then OneOrNone(TitleMatches(events, title)) else Success(exact)
  }

  /** The exact `(title, hash)` match wins, whatever else shares the title. */
  lemma LookupExactFirst(events: seq<Event>, title: string, description: string, hash: string, i: nat)
    requires UniqueKeys(events)
    requires i < |events| && events[i].title == title && events[i].hash == hash
    ensures Lookup(events, title, description, hash) == Success(Some(i))
  {
    KeyHolder(events, title, hash, i);
  }

  /** Without an exact match, an empty description never falls back to the title: a new event follows. */
  lemma LookupNoFallbackForEmpty(events: seq<Event>, title: string, hash: string)
    requires !HasKey(events, title, hash)
    ensures Lookup(events, title, "", hash) == Success(None)
  {
    MatchingEmpty(events, (e: Event) => e.title == title && e.hash == hash);
  }

  /**
   * Without an exact match, a non-empty description falls back to the title:
   * the one row holding it, nothing when none does, and `MultipleResultsFound`
   * when several do.
   */
  lemma LookupByTitle(events: seq<Event>, title: string, description: string, hash: string)
    requires !HasKey(events, title, hash) && description != ""
    ensures Lookup(events, title, description, hash) == OneOrNone(TitleMatches(events, title))
    ensures |TitleMatches(events, title)| >= 2 ==> Lookup(events, title, description, hash) == Failure(MultipleResultsFound)
    ensures (forall j :: 0 <= j < |events| ==> events[j].title != title) ==> Lookup(events, title, description, hash) == Success(None)
  {
    MatchingEmpty(events, (e: Event) => e.title == title && e.hash == hash);
    if forall j :: 0 <= j < |events| ==> events[j].title != title {
      MatchingEmpty(events, (e: Event) => e.title == title);
    }
  }

  /** The fallback finds the single row with the title. */
  lemma LookupSoleTitle(events: seq<Event>, title: string, description: string, hash: string, i: nat)
    requires !HasKey(events, title, hash) && description != ""
    requires i < |events| && events[i].title == title
    requires forall j :: 0 <= j < |events| && j != i ==> events[j].title != title
    ensures Lookup(events, title, description, hash) == Success(Some(i))
  {
    LookupByTitle(events, title, description, hash);
    MatchingSingle(events, (e: Event) => e.title == title, i);
  }

  // ------------------------------------------------------------ showtimes of an existing event

  /** The incoming showtimes missing from `known`, in order; repeats among them are kept. */
  function Fresh(known: seq<Slot>, incoming: seq<Slot>): (r: seq<Slot>)
    ensures forall x :: x in r <==> x in incoming && x !in known
  {
    if incoming == [] then []
    else
      var x := incoming[|incoming| - 1];
      assert forall y :: y in incoming <==> y in incoming[..|incoming| - 1] || y == x;
      Fresh(known, incoming[..|incoming| - 1]) + (if x in known then [] else [x])
  }

  /** `_update_event_dates`: the new showtimes appended, `is_active` set when any was. */
  function MergeDates(e: Event, incoming: seq<Slot>): Event {
    var added := Fresh(e.slots, incoming);
    e.(slots := e.slots + added, isActive := added != [] || e.isActive)
  }

  /**
   * Merging keeps every stored showtime in place, stores every incoming one,
   * adds no other, and activates the event exactly when something was added.
   */
  lemma MergeDatesMeaning(e: Event, incoming: seq<Slot>)
    ensures var m := MergeDates(e, incoming);
      && m.slots[..|e.slots|] == e.slots
      && (forall x :: x in m.slots <==> x in e.slots || x in incoming)
      && m.(slots := e.slots, isActive := e.isActive) == e
      && ((forall x :: x in incoming ==> x in e.slots) ==> m == e)
      && ((exists x :: x in incoming && x !in e.slots) ==> m.isActive)
  {
    var added := Fresh(e.slots, incoming);
    assert added != [] ==> added[0] in added;
    if forall x :: x in incoming ==> x in e.slots {
      assert added == [];
      assert e.slots + [] == e.slots;
    }
    if exists x :: x in incoming && x !in e.slots {
      var x :| x in incoming && x !in e.slots;
      assert x in added;
    }
  }

  /** Merging the same showtimes again changes nothing. */
  lemma MergeDatesIdempotent(e: Event, incoming: seq<Slot>)
    ensures MergeDates(MergeDates(e, incoming), incoming) == MergeDates(e, incoming)
  {
    var m := MergeDates(e, incoming);
    MergeDatesMeaning(e, incoming);
    MergeDatesMeaning(m, incoming);
  }

  /** A showtime sent twice in one call is stored twice: the pre-call set is never refreshed. */
  lemma MergeDatesKeepsRepeats(e: Event, x: Slot)
    requires x !in e.slots
    ensures MergeDates(e, [x, x]).slots == e.slots + [x, x]
  {
    assert [x, x][..1] == [x];
    assert [x][..0] == [];
    assert Fresh(e.slots, [x]) == [x];
    assert Fresh(e.slots, [x, x]) == [x, x];
  }

  /** The description and its hash, replaced only when the description differs. */
  function Revised(e: Event, description: string, hash: string): Event {
    if e.description != description then e.(description := description, hash := hash) else e
  }

  // ------------------------------------------------------------ interests

  /** `_get_or_create_parent_interest`: the interest with this name, created without a parent when missing. */
  function GetOrCreateParent(table: seq<Interest>, name: string): (r: Result<(seq<Interest>, nat), DbError>)
    ensures r.Success? ==> |r.value.0| >= |table| && r.value.0[..|table|] == table
    ensures r.Success? ==> r.value.1 < |r.value.0|
  {
    var m := NameMatches(table, name);
    match OneOrNone(m)
    case Failure(e) => Failure(e)
    case Success(None) => Success((table + [Interest(name, None)], |table|))
    case Success(Some(j)) => assert j == m[0]; Success((table, j))
  }

  /**
   * The category lookup never fails on a valid table. It returns the row with
   * that name, appending a parentless one when there is none, keeps the table
   * valid, and a second call returns the same row and adds nothing.
   */
  lemma ParentStable(table: seq<Interest>, name: string)
    requires UniqueNames(table)
    ensures var r := GetOrCreateParent(table, name);
      && r.Success?
      && r.value.0[r.value.1].name == name
      && UniqueNames(r.value.0)
      && (Taken(table, name) ==> r.value.0 == table)
      && (!Taken(table, name) ==> r.value.0 == table + [Interest(name, None)])
      && GetOrCreateParent(r.value.0, name) == r
  {
    if Taken(table, name) {
      var j :| 0 <= j < |table| && table[j].name == name;
      NameHolder(table, name, j);
      ParentFound(table, name);
    } else {
      ParentCreated(table, name);
    }
  }

  lemma ParentFound(table: seq<Interest>, name: string)
    requires |NameMatches(table, name)| == 1
    ensures Taken(table, name)
    ensures GetOrCreateParent(table, name) == Success((table, NameMatches(table, name)[0]))
    ensures table[NameMatches(table, name)[0]].name == name
  {
    var m := NameMatches(table, name);
    assert table[m[0]].name == name;
  }

  lemma ParentCreated(table: seq<Interest>, name: string)
    requires !Taken(table, name)
    ensures GetOrCreateParent(table, name) == Success((table + [Interest(name, None)], |table|))
    ensures NameMatches(table + [Interest(name, None)], name) == [|table|]
    ensures UniqueNames(table) ==> UniqueNames(table + [Interest(name, None)])
  {
    MatchingEmpty(table, (x: Interest) => x.name == name);
    var t := table + [Interest(name, None)];
    assert forall j :: 0 <= j < |table| ==> t[j] == table[j];
    MatchingSingle(t, (x: Interest) => x.name == name, |table|);
    if UniqueNames(table) {
      UniqueAppend(table, Interest(name, None));
    }
  }

  /** A row whose name no row holds keeps the names unique. */
  lemma UniqueAppend(table: seq<Interest>, x: Interest)
    requires UniqueNames(table) && !Taken(table, x.name)
    ensures UniqueNames(table + [x])
  {
    var t := table + [x];
    assert forall i :: 0 <= i < |table| ==> t[i] == table[i];
  }

  /**
   * The `existing` dictionary of `_get_or_create_child_interests`: name to id
   * of the rows with one of `names` under `parent`, read in table order, a
   * later row overriding an earlier one with the same name.
   */
  function Existing(table: seq<Interest>, names: seq<string>, parent: nat): (m: map<string, nat>)
    ensures forall nm :: nm in m ==> nm in names && m[nm] < |table| && table[m[nm]].name == nm && table[m[nm]].parent == Some(parent)
    ensures forall j :: 0 <= j < |table| && table[j].name in names && table[j].parent == Some(parent) ==> table[j].name in m
  {
    if table == [] then map[]
    else
      var m := Existing(table[..|table| - 1], names, parent);
      var x := table[|table| - 1];
      if x.name in names && x.parent == Some(parent) then m[x.name := |table| - 1] else m
  }

  /**
   * The loop of `_get_or_create_child_interests` over `names`: the rows it
   * creates (ids from `base` on) and the id it picks for each name.
   */
  function Resolve(existing: map<string, nat>, names: seq<string>, parent: nat, base: nat): (r: (seq<Interest>, seq<nat>))
    ensures |r.1| == |names|
  {
    if names == [] then ([], [])
    else
      var prev := Resolve(existing, names[..|names| - 1], parent, base);
      var name := names[|names| - 1];
      if name in existing then (prev.0, prev.1 + [existing[name]])
      else (prev.0 + [Interest(name, Some(parent))], prev.1 + [base + |prev.0|])
  }

  /** Every row the loop creates is a tag under `parent` for one of the names that had none. */
  lemma {:induction false} ResolveRows(existing: map<string, nat>, names: seq<string>, parent: nat, base: nat)
    ensures forall k :: 0 <= k < |Resolve(existing, names, parent, base).0| ==>
      && Resolve(existing, names, parent, base).0[k].parent == Some(parent)
      && Resolve(existing, names, parent, base).0[k].name in names
      && Resolve(existing, names, parent, base).0[k].name !in existing
  {
    if names != [] {
      var init := names[..|names| - 1];
      ResolveRows(existing, init, parent, base);
      assert forall nm :: nm in init ==> nm in names;
      var prev := Resolve(existing, init, parent, base).0;
      var name := names[|names| - 1];
      var rows := Resolve(existing, names, parent, base).0;
      assert rows == if name in existing then prev else prev + [Interest(name, Some(parent))];
      forall k | 0 <= k < |rows|
        ensures rows[k].parent == Some(parent) && rows[k].name in names && rows[k].name !in existing
      {
        if k < |prev| {
          assert rows[k] == prev[k];
        } else {
          assert rows[k] == Interest(name, Some(parent));
        }
      }
    }
  }

  /** Each name gets the existing tag when there is one, else the row created for it. */
  lemma {:induction false} ResolveIds(existing: map<string, nat>, names: seq<string>, parent: nat, base: nat, k: nat)
    requires k < |names|
    ensures var r := Resolve(existing, names, parent, base);
      && (names[k] in existing ==> r.1[k] == existing[names[k]])
      && (names[k] !in existing ==> base <= r.1[k] < base + |r.0| && r.0[r.1[k] - base] == Interest(names[k], Some(parent)))
  {
    var init := names[..|names| - 1];
    var prev := Resolve(existing, init, parent, base);
    var r := Resolve(existing, names, parent, base);
    if k < |names| - 1 {
      ResolveIds(existing, init, parent, base, k);
      assert init[k] == names[k];
      assert r.1[k] == prev.1[k];
      assert r.0[..|prev.0|] == prev.0;
      if names[k] !in existing {
        assert r.0[prev.1[k] - base] == prev.0[prev.1[k] - base];
      }
    }
  }

  /** A name two rows of the table share, when there is one: what makes the flush raise. */
  function Duplicate(table: seq<Interest>): (r: Option<string>)
    ensures r.None? <==> UniqueNames(table)
  {
    if table == [] then None
    else
      var init := table[..|table| - 1];
      var last := table[|table| - 1];
      var d := Duplicate(init);
      if d.Some? then d
      else if Taken(init, last.name) then
        var j :| 0 <= j < |init| && init[j].name == last.name;
        assert table[j].name == table[|table| - 1].name;
        Some(last.name)
      else
        assert UniqueNames(table) by {
          assert forall i :: 0 <= i < |init| ==> table[i] == init[i];
        }
        None
  }

  /** `_get_or_create_child_interests`: the tag ids for `names`, in order, creating the missing ones under `parent`. */
  function GetOrCreateChildren(table: seq<Interest>, names: seq<string>, parent: nat): (r: Result<(seq<Interest>, seq<nat>), DbError>)
    ensures r.Success? ==> |r.value.0| >= |table| && r.value.0[..|table|] == table
    ensures r.Success? && names != [] ==> UniqueNames(r.value.0)
    ensures names == [] ==> r == Success((table, []))
  {
    if names == [] then Success((table, []))
    else
      var rows := Resolve(Existing(table, names, parent), names, parent, |table|);
      var grown := table + rows.0;
      var dup := Duplicate(grown);
      if dup.Some? then Failure(UniqueViolation(dup.value)) else Success((grown, rows.1))
  }


  /**
   * On success every name gets an interest with that name under `parent`, in
   * order: a `(name, parent)` row already stored is reused, the others are
   * new rows appended to the table.
   */
  lemma ChildrenResolved(table: seq<Interest>, names: seq<string>, parent: nat, k: nat)
    requires UniqueNames(table)
    requires GetOrCreateChildren(table, names, parent).Success? && k < |names|
    ensures var r := GetOrCreateChildren(table, names, parent).value;
      && |r.1| == |names|
      && r.1[k] < |r.0| && r.0[r.1[k]].name == names[k] && r.0[r.1[k]].parent == Some(parent)
      && (forall j :: 0 <= j < |table| && table[j].name == names[k] && table[j].parent == Some(parent) ==> r.1[k] == j)
  {
    var existing := Existing(table, names, parent);
    var rows := Resolve(existing, names, parent, |table|);
    ChildrenValue(table, names, parent);
    ChildPicked(table, existing, rows, names, parent, k);
  }

  /** What a successful `_get_or_create_child_interests` returns: the grown table and the loop's ids. */
  lemma ChildrenValue(table: seq<Interest>, names: seq<string>, parent: nat)
    requires names != [] && GetOrCreateChildren(table, names, parent).Success?
    ensures var rows := Resolve(Existing(table, names, parent), names, parent, |table|);
      GetOrCreateChildren(table, names, parent).value == (table + rows.0, rows.1)
  {
  }

  lemma ChildPicked(table: seq<Interest>, existing: map<string, nat>, rows: (seq<Interest>, seq<nat>), names: seq<string>, parent: nat, k: nat)
    requires UniqueNames(table)
    requires existing == Existing(table, names, parent) && rows == Resolve(existing, names, parent, |table|)
    requires k < |names|
    ensures var grown := table + rows.0;
      && rows.1[k] < |grown| && grown[rows.1[k]].name == names[k] && grown[rows.1[k]].parent == Some(parent)
      && (forall j :: 0 <= j < |table| && table[j].name == names[k] && table[j].parent == Some(parent) ==> rows.1[k] == j)
  {
    var grown := table + rows.0;
    ResolveIds(existing, names, parent, |table|, k);
    if names[k] in existing {
      assert grown[rows.1[k]] == table[rows.1[k]];
      forall j | 0 <= j < |table| && table[j].name == names[k] && table[j].parent == Some(parent)
        ensures rows.1[k] == j
      {
        ExistingReused(table, names, parent, j);
      }
    } else {
      assert grown[rows.1[k]] == rows.0[rows.1[k] - |table|];
    }
  }

  /** Under unique names, the dictionary maps a stored tag's name to that tag. */
  lemma ExistingReused(table: seq<Interest>, names: seq<string>, parent: nat, j: nat)
    requires UniqueNames(table)
    requires j < |table| && table[j].name in names && table[j].parent == Some(parent)
    ensures table[j].name in Existing(table, names, parent) && Existing(table, names, parent)[table[j].name] == j
  {
  }

  /** A tag name already held by an interest outside `parent` cannot be created under it: the flush raises. */
  lemma ChildNameTakenElsewhere(table: seq<Interest>, names: seq<string>, parent: nat, j: nat)
    requires UniqueNames(table)
    requires j < |table| && table[j].name in names && table[j].parent != Some(parent)
    ensures GetOrCreateChildren(table, names, parent).Failure?
  {
    var existing := Existing(table, names, parent);
    var rows := Resolve(existing, names, parent, |table|);
    var grown := table + rows.0;
    var k :| 0 <= k < |names| && names[k] == table[j].name;
    assert names[k] !in existing;
    ResolveIds(existing, names, parent, |table|, k);
    var id := rows.1[k];
    assert grown[id] == rows.0[id - |table|];
    assert grown[j] == table[j];
    assert grown[j].name == grown[id].name && j < id;
  }

  /** A new tag name repeated among the names is created twice: the flush raises. */
  lemma RepeatedNewName(table: seq<Interest>, names: seq<string>, parent: nat, a: nat, b: nat)
    requires a < b < |names| && names[a] == names[b] && !Taken(table, names[a])
    ensures GetOrCreateChildren(table, names, parent).Failure?
  {
    var existing := Existing(table, names, parent);
    var rows := Resolve(existing, names, parent, |table|);
    var grown := table + rows.0;
    assert names[a] !in existing;
    ResolveIds(existing, names, parent, |table|, a);
    ResolveIds(existing, names, parent, |table|, b);
    ResolveNewInOrder(existing, names, parent, |table|, a, b);
    var x, y := rows.1[a], rows.1[b];
    assert grown[x] == rows.0[x - |table|] && grown[y] == rows.0[y - |table|];
    assert grown[x].name == grown[y].name && x < y;
  }

  /** Names that had no tag get fresh ids in the order they come. */
  lemma {:induction false} ResolveNewInOrder(existing: map<string, nat>, names: seq<string>, parent: nat, base: nat, a: nat, b: nat)
    requires a < b < |names| && names[a] !in existing && names[b] !in existing
    ensures Resolve(existing, names, parent, base).1[a] < Resolve(existing, names, parent, base).1[b]
  {
    var init := names[..|names| - 1];
    var prev := Resolve(existing, init, parent, base);
    assert init[a] == names[a];
    ResolveIds(existing, init, parent, base, a);
    if b < |names| - 1 {
      assert init[b] == names[b];
      ResolveNewInOrder(existing, init, parent, base, a, b);
    }
  }

  // ------------------------------------------------------------ one scraped event

  /**
   * The interest ids `_add_or_update_event` attaches for the tag names: the
   * category and the tags under it, created where missing; none without tags.
   */
  function Attach(table: seq<Interest>, category: string, names: seq<string>): (r: Result<(seq<Interest>, set<nat>), DbError>)
    ensures r.Success? ==> |r.value.0| >= |table| && r.value.0[..|table|] == table
    ensures names == [] ==> r == Success((table, {}))
  {
    if names == [] then Success((table, {}))
    else
      match GetOrCreateParent(table, category)
      case Failure(e) => Failure(e)
      case Success(pr) =>
        match GetOrCreateChildren(pr.0, names, pr.1)
        case Failure(e) => Failure(e)
        case Success(cr) =>
          PrefixOfPrefix(table, pr.0, cr.0);
          Success((cr.0, Elements(cr.1) + {pr.1}))
  }

  lemma PrefixOfPrefix<T>(a: seq<T>, b: seq<T>, c: seq<T>)
    requires |b| >= |a| && b[..|a|] == a
    requires |c| >= |b| && c[..|b|] == b
    ensures c[..|a|] == a
  {
    assert c[..|a|] == c[..|b|][..|a|];
  }

  /**
   * With tags, the category and, for each tag name, a tag of that name under
   * the category are attached; every attached id is a row of the grown table,
   * which stays valid.
   */
  lemma AttachTags(table: seq<Interest>, category: string, names: seq<string>)
    requires UniqueNames(table) && Attach(table, category, names).Success?
    ensures var r := Attach(table, category, names).value;
      && UniqueNames(r.0)
      && (forall x :: x in r.1 ==> x < |r.0|)
      && (names != [] ==>
            var p := GetOrCreateParent(table, category).value.1;
            && p in r.1 && r.0[p].name == category && r.0[p] == GetOrCreateParent(table, category).value.0[p]
            && (forall k :: 0 <= k < |names| ==>
                  exists x :: x in r.1 && x < |r.0| && r.0[x].name == names[k] && r.0[x].parent == Some(p)))
  {
    if names != [] {
      ParentStable(table, category);
      var pr := GetOrCreateParent(table, category).value;
      var cr := GetOrCreateChildren(pr.0, names, pr.1).value;
      assert cr.0[..|pr.0|] == pr.0;
      assert cr.0[pr.1] == pr.0[pr.1];
      forall k | 0 <= k < |names|
        ensures cr.1[k] in Elements(cr.1) && cr.1[k] < |cr.0|
        ensures cr.0[cr.1[k]].name == names[k] && cr.0[cr.1[k]].parent == Some(pr.1)
      {
        ChildrenResolved(pr.0, names, pr.1, k);
      }
    }
  }

  /** The description `_add_or_update_event` stores: `event_data.get('description') or ""`. */
  function Description(e: ScrapedEvent): string {
    if e.description.Some? then e.description.value else ""
  }

  /**
   * `_add_or_update_event`: merge the scraped event into the row it matches,
   * or add it as a new row.
   */
  function AddOrUpdate(c: Catalog, hash: string -> string, category: string, e: ScrapedEvent): Result<Catalog, DbError> {
    var description := Description(e);
    var h := hash(description);
    match Lookup(c.events, e.title, description, h)
    case Failure(err) => Failure(err)
    case Success(found) =>
      match Attach(c.interests, category, e.interests)
      case Failure(err) => Failure(err)
      case Success(attached) =>
        if found.Some? then
          var merged := Revised(MergeDates(c.events[found.value], e.dateLocations), description, h);
          Success(Catalog(c.events[found.value := merged.(interests := merged.interests + attached.1)], attached.0))
        else
          Success(Catalog(c.events + [Event(e.title, description, h, true, e.dateLocations, attached.1, 0)], attached.0))
  }

  /** `add_events_from_parser`: all the events in order, in one transaction; the first error aborts it all. */
  function AddBatch(c: Catalog, hash: string -> string, category: string, es: seq<ScrapedEvent>): Result<Catalog, DbError>
    decreases |es|
  {
    if es == [] then Success(c)
    else
      match AddOrUpdate(c, hash, category, es[0])
      case Failure(err) => Failure(err)
      case Success(next) => AddBatch(next, hash, category, es[1..])
  }

  /** When a row holds the incoming `(title, hash)` key, the lookup lands on such a row. */
  lemma LookupFindsKey(events: seq<Event>, title: string, description: string, hash: string)
    requires UniqueKeys(events)
    ensures HasKey(events, title, hash) ==>
      var r := Lookup(events, title, description, hash);
      r.Success? && r.value.Some? && events[r.value.value].hash == hash
  {
    if HasKey(events, title, hash) {
      var j :| 0 <= j < |events| && events[j].title == title && events[j].hash == hash;
      LookupExactFirst(events, title, description, hash, j);
    }
  }

  /** Replacing a row by one with its own key, or with a key no row holds, keeps the keys unique. */
  lemma ReplaceKeepsKeys(events: seq<Event>, i: nat, ev: Event)
    requires UniqueKeys(events) && i < |events|
    requires (ev.title == events[i].title && ev.hash == events[i].hash) || !HasKey(events, ev.title, ev.hash)
    ensures UniqueKeys(events[i := ev])
  {
    var t := events[i := ev];
    assert forall j :: 0 <= j < |events| && j != i ==> t[j] == events[j];
  }

  /** Appending a row with a key no row holds keeps the keys unique. */
  lemma AppendKeepsKeys(events: seq<Event>, ev: Event)
    requires UniqueKeys(events) && !HasKey(events, ev.title, ev.hash)
    ensures UniqueKeys(events + [ev])
  {
    var t := events + [ev];
    assert forall j :: 0 <= j < |events| ==> t[j] == events[j];
  }

  /**
   * A successful merge keeps both constraints: the `(title, hash)` key of a
   * row changes only to one no row holds, and no interest name is stored twice.
   */
  lemma AddOrUpdateKeepsValid(c: Catalog, hash: string -> string, category: string, e: ScrapedEvent)
    requires Valid(c) && AddOrUpdate(c, hash, category, e).Success?
    ensures Valid(AddOrUpdate(c, hash, category, e).value)
  {
    var d := Description(e);
    var h := hash(d);
    var found := Lookup(c.events, e.title, d, h).value;
    AttachTags(c.interests, category, e.interests);
    var attached := Attach(c.interests, category, e.interests).value;
    LookupFindsKey(c.events, e.title, d, h);
    if found.Some? {
      var i := found.value;
      var merged := Revised(MergeDates(c.events[i], e.dateLocations), d, h);
      ReplaceKeepsKeys(c.events, i, merged.(interests := merged.interests + attached.1));
    } else {
      AppendKeepsKeys(c.events, Event(e.title, d, h, true, e.dateLocations, attached.1, 0));
    }
  }

  /** A whole successful batch keeps both constraints. */
  lemma {:induction false} AddBatchKeepsValid(c: Catalog, hash: string -> string, category: string, es: seq<ScrapedEvent>)
    requires Valid(c) && AddBatch(c, hash, category, es).Success?
    ensures Valid(AddBatch(c, hash, category, es).value)
    decreases |es|
  {
    if es != [] {
      AddOrUpdateKeepsValid(c, hash, category, es[0]);
      AddBatchKeepsValid(AddOrUpdate(c, hash, category, es[0]).value, hash, category, es[1..]);
    }
  }

  /**
   * Merging into the matched row `i`: its showtimes merged, its description
   * and hash replaced only when the description differs, its interests only
   * grown (and untouched without tags); every other row stays as it was.
   */
  lemma AddOrUpdateMerges(c: Catalog, hash: string -> string, category: string, e: ScrapedEvent, i: nat)
    requires Lookup(c.events, e.title, Description(e), hash(Description(e))) == Success(Some(i))
    requires AddOrUpdate(c, hash, category, e).Success?
    ensures var r := AddOrUpdate(c, hash, category, e).value;
      var before := c.events[i];
      var d := Description(e);
      && |r.events| == |c.events|
      && (forall j :: 0 <= j < |c.events| && j != i ==> r.events[j] == c.events[j])
      && r.events[i].title == before.title == e.title && r.events[i].feedback == before.feedback
      && r.events[i].slots == MergeDates(before, e.dateLocations).slots
      && r.events[i].isActive == MergeDates(before, e.dateLocations).isActive
      && r.events[i].description == d
      && r.events[i].hash == (if before.description != d then hash(d) else before.hash)
      && r.events[i].interests == before.interests + Attach(c.interests, category, e.interests).value.1
      && r.interests == Attach(c.interests, category, e.interests).value.0
      && (e.interests == [] ==> r.events[i].interests == before.interests && r.interests == c.interests)
  {
  }

  /** Without a match the event is appended with its hash, all its showtimes as sent, and no feedback. */
  lemma AddOrUpdateCreates(c: Catalog, hash: string -> string, category: string, e: ScrapedEvent)
    requires Lookup(c.events, e.title, Description(e), hash(Description(e))) == Success(None)
    requires AddOrUpdate(c, hash, category, e).Success?
    ensures var r := AddOrUpdate(c, hash, category, e).value;
      var d := Description(e);
      && |r.events| == |c.events| + 1 && r.events[..|c.events|] == c.events
      && r.events[|c.events|] == Event(e.title, d, hash(d), true, e.dateLocations, Attach(c.interests, category, e.interests).value.1, 0)
      && r.interests == Attach(c.interests, category, e.interests).value.0
  {
    var r := AddOrUpdate(c, hash, category, e).value;
    assert r.events[..|c.events|] == c.events;
  }

  /** A title-only fallback that hits several rows raises `MultipleResultsFound`. */
  lemma AmbiguousTitle(c: Catalog, hash: string -> string, category: string, e: ScrapedEvent)
    requires Description(e) != "" && !HasKey(c.events, e.title, hash(Description(e)))
    requires |TitleMatches(c.events, e.title)| >= 2
    ensures AddOrUpdate(c, hash, category, e) == Failure(MultipleResultsFound)
  {
    LookupByTitle(c.events, e.title, Description(e), hash(Description(e)));
  }

  /** An error at any event of the batch is the batch's outcome: nothing of it is kept. */
  lemma {:induction false} BatchAborts(c: Catalog, hash: string -> string, category: string, es: seq<ScrapedEvent>, k: nat, mid: Catalog)
    requires k < |es| && AddBatch(c, hash, category, es[..k]) == Success(mid)
    requires AddOrUpdate(mid, hash, category, es[k]).Failure?
    ensures AddBatch(c, hash, category, es) == Failure(AddOrUpdate(mid, hash, category, es[k]).error)
    decreases k
  {
    if k > 0 {
      assert es[..k][0] == es[0];
      var c1 := AddOrUpdate(c, hash, category, es[0]).value;
      assert es[..k][1..] == es[1..][..k - 1];
      BatchAborts(c1, hash, category, es[1..], k - 1, mid);
    }
  }

  /** An untagged event without a match is appended as it was sent; the interests stay. */
  lemma CreateUntagged(c: Catalog, hash: string -> string, category: string, e: ScrapedEvent)
    requires Lookup(c.events, e.title, Description(e), hash(Description(e))) == Success(None)
    requires e.interests == []
    ensures AddOrUpdate(c, hash, category, e)
      == Success(Catalog(c.events + [Event(e.title, Description(e), hash(Description(e)), true, e.dateLocations, {}, 0)], c.interests))
  {
  }

  /** An untagged event matching row `i` revises that row only; the interests stay. */
  lemma MergeUntagged(c: Catalog, hash: string -> string, category: string, e: ScrapedEvent, i: nat)
    requires Lookup(c.events, e.title, Description(e), hash(Description(e))) == Success(Some(i))
    requires e.interests == []
    ensures AddOrUpdate(c, hash, category, e)
      == Success(Catalog(c.events[i := Revised(MergeDates(c.events[i], e.dateLocations), Description(e), hash(Description(e)))], c.interests))
  {
    var d := Description(e);
    assert i < |c.events|;
    assert Attach(c.interests, category, e.interests) == Success((c.interests, {}));
    var merged := Revised(MergeDates(c.events[i], e.dateLocations), d, hash(d));
    assert merged.interests + {} == merged.interests;
    assert merged.(interests := merged.interests + {}) == merged;
    assert AddOrUpdate(c, hash, category, e) == Success(Catalog(c.events[i := merged.(interests := merged.interests + {})], c.interests));
  }

  /** An untagged event matching row `i` exactly, with nothing new to add, leaves the catalog as it was. */
  lemma RematchUntagged(c: Catalog, hash: string -> string, category: string, e: ScrapedEvent, i: nat)
    requires Lookup(c.events, e.title, Description(e), hash(Description(e))) == Success(Some(i))
    requires e.interests == [] && i < |c.events| && c.events[i].description == Description(e)
    requires forall x :: x in e.dateLocations ==> x in c.events[i].slots
    ensures AddOrUpdate(c, hash, category, e) == Success(c)
  {
    MergeUntagged(c, hash, category, e, i);
    MergeDatesMeaning(c.events[i], e.dateLocations);
    assert c.events[i := c.events[i]] == c.events;
  }

  /** An untagged event matching row `i` by title, with nothing new to add, only revises its description and hash. */
  lemma ReviseUntagged(c: Catalog, hash: string -> string, category: string, e: ScrapedEvent, i: nat)
    requires Lookup(c.events, e.title, Description(e), hash(Description(e))) == Success(Some(i))
    requires e.interests == [] && i < |c.events| && c.events[i].description != Description(e)
    requires forall x :: x in e.dateLocations ==> x in c.events[i].slots
    ensures AddOrUpdate(c, hash, category, e)
      == Success(c.(events := c.events[i := c.events[i].(description := Description(e), hash := hash(Description(e)))]))
  {
    MergeUntagged(c, hash, category, e, i);
    MergeDatesMeaning(c.events[i], e.dateLocations);
  }

  lemma TwoKeys(a: Event, b: Event)
    requires a.title != b.title || a.hash != b.hash
    ensures UniqueKeys([a, b])
  {
  }

  /** A batch of two events is the second applied to the outcome of the first. */
  lemma BatchOfTwo(c: Catalog, hash: string -> string, category: string, x: ScrapedEvent, y: ScrapedEvent, mid: Catalog)
    requires AddOrUpdate(c, hash, category, x) == Success(mid)
    ensures AddBatch(c, hash, category, [x, y]) == AddOrUpdate(mid, hash, category, y)
  {
    assert [x, y][1..] == [y];
    assert AddBatch(c, hash, category, [x, y]) == AddBatch(mid, hash, category, [y]);
    BatchOfOne(mid, hash, category, y);
  }

  lemma BatchOfOne(c: Catalog, hash: string -> string, category: string, x: ScrapedEvent)
    ensures AddBatch(c, hash, category, [x]) == AddOrUpdate(c, hash, category, x)
  {
    assert [x][1..] == [];
  }

  /**
   * Running the same batch twice does not give the same catalog: a title sent
   * first without a description and then with one is one row after the first
   * run and two rows after the second.
   */
  lemma BatchNotIdempotent(hash: string -> string, category: string, bare: ScrapedEvent, described: ScrapedEvent)
    requires bare.title == described.title && bare.dateLocations == described.dateLocations
    requires bare.interests == [] && described.interests == []
    requires bare.description == None && described.description.Some? && described.description.value != ""
    requires hash("") != hash(described.description.value)
    ensures var d := described.description.value;
      var once := Catalog([Event(bare.title, d, hash(d), true, bare.dateLocations, {}, 0)], []);
      && AddBatch(Catalog([], []), hash, category, [bare, described]) == Success(once)
      && AddBatch(once, hash, category, [bare, described])
           == Success(Catalog(once.events + [Event(bare.title, "", hash(""), true, bare.dateLocations, {}, 0)], []))
  {
    var d := described.description.value;
    var updated := Event(bare.title, d, hash(d), true, bare.dateLocations, {}, 0);
    var created := Event(bare.title, "", hash(""), true, bare.dateLocations, {}, 0);
    FirstRun(hash, category, bare, described);
    SecondRun(hash, category, bare, described);
    assert [updated] + [created] == [updated, created];
  }

  /** The first run: the bare event is new, the described one finds it by title and revises it. */
  lemma FirstRun(hash: string -> string, category: string, bare: ScrapedEvent, described: ScrapedEvent)
    requires bare.title == described.title && bare.dateLocations == described.dateLocations
    requires bare.interests == [] && described.interests == []
    requires bare.description == None && described.description.Some? && described.description.value != ""
    requires hash("") != hash(described.description.value)
    ensures var d := described.description.value;
      AddBatch(Catalog([], []), hash, category, [bare, described])
        == Success(Catalog([Event(bare.title, d, hash(d), true, bare.dateLocations, {}, 0)], []))
  {
    var d := described.description.value;
    var created := Event(bare.title, "", hash(""), true, bare.dateLocations, {}, 0);
    var updated := Event(bare.title, d, hash(d), true, bare.dateLocations, {}, 0);
    var one := Catalog([created], []);
    LookupNoFallbackForEmpty([], bare.title, hash(""));
    CreateUntagged(Catalog([], []), hash, category, bare);
    assert [] + [created] == [created];
    LookupSoleTitle([created], bare.title, d, hash(d), 0);
    ReviseUntagged(one, hash, category, described, 0);
    assert [created][0 := updated] == [updated];
    BatchOfTwo(Catalog([], []), hash, category, bare, described, one);
  }

  /** The second run: the bare event no longer matches and is added again; the described one matches exactly. */
  lemma SecondRun(hash: string -> string, category: string, bare: ScrapedEvent, described: ScrapedEvent)
    requires bare.title == described.title && bare.dateLocations == described.dateLocations
    requires bare.interests == [] && described.interests == []
    requires bare.description == None && described.description.Some? && described.description.value != ""
    requires hash("") != hash(described.description.value)
    ensures var d := described.description.value;
      var updated := Event(bare.title, d, hash(d), true, bare.dateLocations, {}, 0);
      AddBatch(Catalog([updated], []), hash, category, [bare, described])
        == Success(Catalog([updated, Event(bare.title, "", hash(""), true, bare.dateLocations, {}, 0)], []))
  {
    var d := described.description.value;
    var created := Event(bare.title, "", hash(""), true, bare.dateLocations, {}, 0);
    var updated := Event(bare.title, d, hash(d), true, bare.dateLocations, {}, 0);
    var once := Catalog([updated], []);
    var twice := Catalog([updated, created], []);
    LookupNoFallbackForEmpty([updated], bare.title, hash(""));
    CreateUntagged(once, hash, category, bare);
    assert [updated] + [created] == twice.events;
    TwoKeys(updated, created);
    LookupExactFirst(twice.events, bare.title, d, hash(d), 0);
    RematchUntagged(twice, hash, category, described, 0);
    BatchOfTwo(once, hash, category, bare, described, twice);
  }

  // ------------------------------------------------------------ the sweep

  /** `[dl for dl in event.date_locations if dl.date >= now]`. */
  function Upcoming(slots: seq<Slot>, now: int): seq<Slot> {
    if slots == [] then []
    else
      var x := slots[|slots| - 1];
      Upcoming(slots[..|slots| - 1], now) + (if x.date >= now then [x] else [])
  }

  /** Pruning keeps exactly the showtimes from `now` on. */
  lemma {:induction false} UpcomingMembers(slots: seq<Slot>, now: int)
    ensures forall x :: x in Upcoming(slots, now) <==> x in slots && x.date >= now
  {
    if slots != [] {
      var init := slots[..|slots| - 1];
      UpcomingMembers(init, now);
      assert slots == init + [slots[|slots| - 1]];
    }
  }

  /** Pruning keeps the order of the showtimes: it distributes over concatenation. */
  lemma {:induction false} UpcomingConcat(a: seq<Slot>, b: seq<Slot>, now: int)
    ensures Upcoming(a + b, now) == Upcoming(a, now) + Upcoming(b, now)
  {
    if b != [] {
      var init := b[..|b| - 1];
      assert (a + b)[..|a + b| - 1] == a + init;
      UpcomingConcat(a, init, now);
    } else {
      assert a + b == a;
    }
  }

  /** Showtimes none of which is past are kept as they are. */
  lemma {:induction false} UpcomingAll(slots: seq<Slot>, now: int)
    requires forall x :: x in slots ==> x.date >= now
    ensures Upcoming(slots, now) == slots
  {
    if slots != [] {
      var init := slots[..|slots| - 1];
      assert forall x :: x in init ==> x in slots;
      UpcomingAll(init, now);
      assert slots[|slots| - 1] in slots;
      assert slots == init + [slots[|slots| - 1]];
    }
  }

  /** An event after the sweep: past showtimes dropped, active exactly when some remain. */
  function Swept(e: Event, now: int): Event {
    var upcoming := Upcoming(e.slots, now);
    e.(slots := upcoming, isActive := upcoming != [])
  }

  /** No showtime left and no feedback: the sweep deletes it. */
  predicate Doomed(e: Event, now: int) {
    Upcoming(e.slots, now) == [] && e.feedback == 0
  }

  /** The rows `delete_invalid_events` keeps, swept, in order. */
  function Survivors(events: seq<Event>, now: int): seq<Event> {
    if events == [] then []
    else
      var e := events[|events| - 1];
      Survivors(events[..|events| - 1], now) + (if Doomed(e, now) then [] else [Swept(e, now)])
  }

  /** The rows `delete_invalid_events` deletes and returns, swept, in order. */
  function Casualties(events: seq<Event>, now: int): seq<Event> {
    if events == [] then []
    else
      var e := events[|events| - 1];
      Casualties(events[..|events| - 1], now) + (if Doomed(e, now) then [Swept(e, now)] else [])
  }

  /** The sweep of one more row. */
  lemma SweepStep(events: seq<Event>, now: int, k: nat)
    requires k < |events|
    ensures Survivors(events[..k + 1], now) == Survivors(events[..k], now) + (if Doomed(events[k], now) then [] else [Swept(events[k], now)])
    ensures Casualties(events[..k + 1], now) == Casualties(events[..k], now) + (if Doomed(events[k], now) then [Swept(events[k], now)] else [])
  {
    assert events[..k + 1][..k] == events[..k];
  }

  /** Every row is either kept or deleted. */
  lemma {:induction false} SweepPartition(events: seq<Event>, now: int)
    ensures |Survivors(events, now)| + |Casualties(events, now)| == |events|
  {
    if events != [] {
      SweepPartition(events[..|events| - 1], now);
    }
  }

  /** A row is deleted, and returned, exactly when it has no upcoming showtime and no feedback; the others are kept. */
  lemma {:induction false} SweepSorts(events: seq<Event>, now: int, k: nat)
    requires k < |events|
    ensures Doomed(events[k], now) ==> Swept(events[k], now) in Casualties(events, now)
    ensures !Doomed(events[k], now) ==> Swept(events[k], now) in Survivors(events, now)
  {
    var init := events[..|events| - 1];
    if k < |events| - 1 {
      assert init[k] == events[k];
      SweepSorts(init, now, k);
    }
  }

  /**
   * What the sweep leaves: deleted rows have no showtime, are inactive and
   * have no feedback; kept rows have only showtimes from `now` on, are active
   * exactly when they have one, and are active or have feedback.
   */
  lemma {:induction false} SweepShapes(events: seq<Event>, now: int)
    ensures forall x :: x in Casualties(events, now) ==> x.slots == [] && !x.isActive && x.feedback == 0
    ensures forall x :: x in Survivors(events, now) ==>
      && (x.isActive <==> x.slots != [])
      && (x.isActive || x.feedback > 0)
      && (forall y :: y in x.slots ==> y.date >= now)
  {
    if events != [] {
      SweepShapes(events[..|events| - 1], now);
      UpcomingMembers(events[|events| - 1].slots, now);
    }
  }

  /** An event someone gave feedback on is never deleted. */
  lemma FeedbackProtects(events: seq<Event>, now: int, k: nat)
    requires k < |events| && events[k].feedback > 0
    ensures Swept(events[k], now) in Survivors(events, now)
    ensures Swept(events[k], now) !in Casualties(events, now)
  {
    SweepSorts(events, now, k);
    SweepShapes(events, now);
  }

  /** A kept row is left alone by a second sweep. */
  lemma SweptStable(e: Event, now: int)
    requires !Doomed(e, now)
    ensures Swept(Swept(e, now), now) == Swept(e, now) && !Doomed(Swept(e, now), now)
  {
    UpcomingMembers(e.slots, now);
    UpcomingAll(Swept(e, now).slots, now);
  }

  /** Sweeping again with the same `now` deletes nothing and changes nothing. */
  lemma {:induction false} SweepIdempotent(events: seq<Event>, now: int)
    ensures Survivors(Survivors(events, now), now) == Survivors(events, now)
    ensures Casualties(Survivors(events, now), now) == []
  {
    if events != [] {
      var init := events[..|events| - 1];
      var e := events[|events| - 1];
      SweepIdempotent(init, now);
      var kept := Survivors(init, now);
      if Doomed(e, now) {
        assert Survivors(events, now) == kept;
      } else {
        var x := Swept(e, now);
        SweptStable(e, now);
        assert Survivors(events, now) == kept + [x];
        SweepOfAppended(kept, x, now);
      }
    }
  }

  lemma SweepOfAppended(kept: seq<Event>, x: Event, now: int)
    requires !Doomed(x, now) && Swept(x, now) == x
    ensures Survivors(kept + [x], now) == Survivors(kept, now) + [x]
    ensures Casualties(kept + [x], now) == Casualties(kept, now)
  {
    assert (kept + [x])[..|kept + [x]| - 1] == kept;
    assert (kept + [x])[|kept + [x]| - 1] == x;
  }

  /** Every kept row carries the key of a row it came from. */
  lemma {:induction false} SurvivorKeys(events: seq<Event>, now: int)
    ensures forall x :: x in Survivors(events, now) ==> HasKey(events, x.title, x.hash)
  {
    if events != [] {
      var init := events[..|events| - 1];
      SurvivorKeys(init, now);
      forall x | x in Survivors(init, now)
        ensures HasKey(events, x.title, x.hash)
      {
        var j :| 0 <= j < |init| && init[j].title == x.title && init[j].hash == x.hash;
        assert events[j] == init[j];
      }
      assert events[|events| - 1] == events[|events| - 1];
    }
  }

  /** The sweep keeps the `(title, hash)` key unique. */
  lemma {:induction false} SweepKeepsKeys(events: seq<Event>, now: int)
    requires UniqueKeys(events)
    ensures UniqueKeys(Survivors(events, now))
  {
    if events != [] {
      var init := events[..|events| - 1];
      var e := events[|events| - 1];
      assert forall j :: 0 <= j < |init| ==> init[j] == events[j];
      assert UniqueKeys(init);
      SweepKeepsKeys(init, now);
      if !Doomed(e, now) {
        SurvivorKeys(init, now);
        assert !HasKey(init, e.title, e.hash);
        AppendKeepsKeys(Survivors(init, now), Swept(e, now));
      }
    }
  }

  // ------------------------------------------------------------ the steps of `_add_or_update_event`

  /** The interests attached when the category and the tags resolve. */
  lemma AttachOf(table: seq<Interest>, category: string, names: seq<string>, pr: (seq<Interest>, nat), cr: (seq<Interest>, seq<nat>))
    requires names != [] && GetOrCreateParent(table, category) == Success(pr)
    requires GetOrCreateChildren(pr.0, names, pr.1) == Success(cr)
    ensures Attach(table, category, names) == Success((cr.0, Elements(cr.1) + {pr.1}))
  {
  }

  /** A failing category or tag lookup is the error of the attachment. */
  lemma AttachFails(table: seq<Interest>, category: string, names: seq<string>)
    requires names != []
    ensures GetOrCreateParent(table, category).Failure? ==>
      Attach(table, category, names) == Failure(GetOrCreateParent(table, category).error)
    ensures GetOrCreateParent(table, category).Success? ==>
      var pr := GetOrCreateParent(table, category).value;
      GetOrCreateChildren(pr.0, names, pr.1).Failure? ==>
        Attach(table, category, names) == Failure(GetOrCreateChildren(pr.0, names, pr.1).error)
  {
  }

  /** `_add_or_update_event` once the lookup and the attachment have succeeded. */
  lemma AddOrUpdateOf(c: Catalog, hash: string -> string, category: string, e: ScrapedEvent,
                      found: Option<nat>, attached: (seq<Interest>, set<nat>))
    requires Lookup(c.events, e.title, Description(e), hash(Description(e))) == Success(found)
    requires Attach(c.interests, category, e.interests) == Success(attached)
    ensures found.Some? ==> found.value < |c.events|
    ensures var d := Description(e);
      AddOrUpdate(c, hash, category, e) ==
        if found.Some? then
          var merged := Revised(MergeDates(c.events[found.value], e.dateLocations), d, hash(d));
          Success(Catalog(c.events[found.value := merged.(interests := merged.interests + attached.1)], attached.0))
        else
          Success(Catalog(c.events + [Event(e.title, d, hash(d), true, e.dateLocations, attached.1, 0)], attached.0))
  {
  }

  /** A failing lookup or attachment is the error of `_add_or_update_event`. */
  lemma AddOrUpdateFails(c: Catalog, hash: string -> string, category: string, e: ScrapedEvent)
    ensures var l := Lookup(c.events, e.title, Description(e), hash(Description(e)));
      && (l.Failure? ==> AddOrUpdate(c, hash, category, e) == Failure(l.error))
      && (l.Success? && Attach(c.interests, category, e.interests).Failure? ==>
            AddOrUpdate(c, hash, category, e) == Failure(Attach(c.interests, category, e.interests).error))
  {
  }

  /** The batch after one successful event is the rest of the batch from there. */
  lemma AddBatchStep(c: Catalog, hash: string -> string, category: string, es: seq<ScrapedEvent>, k: nat)
    requires k < |es|
    ensures AddOrUpdate(c, hash, category, es[k]).Success? ==>
      AddBatch(c, hash, category, es[k..]) == AddBatch(AddOrUpdate(c, hash, category, es[k]).value, hash, category, es[k + 1..])
    ensures AddOrUpdate(c, hash, category, es[k]).Failure? ==>
      AddBatch(c, hash, category, es[k..]) == Failure(AddOrUpdate(c, hash, category, es[k]).error)
  {
    assert es[k..][0] == es[k] && es[k..][1..] == es[k + 1..];
  }

  // ------------------------------------------------------------ the repository object

  /**
   * `EventCRUD` over its session: the event and interest tables it reads and
   * writes, the description hash it uses and the category its parser's base
   * URL names.
   */
  class EventCrud {
    var events: seq<Event>
    var interests: seq<Interest>
    const hash: string -> string
    const category: string

    function Snapshot(): Catalog
      reads this
    {
      Catalog(events, interests)
    }

    /** A repository over `catalog`, whose parser reads the listing at `basePath`. */
    constructor(catalog: Catalog, hash: string -> string, basePath: string)
      ensures Snapshot() == catalog && this.hash == hash && category == ParentNameFromPath(basePath)
    {
      events := catalog.events;
      interests := catalog.interests;
      this.hash := hash;
      category := ParentNameFromPath(basePath);
    }

    /** `_update_event_dates`: append the showtimes not stored before the call; activate the event when any was. */
    method UpdateEventDates(i: nat, newDates: seq<Slot>)
      requires i < |events|
      modifies this
      ensures events == old(events)[i := MergeDates(old(events)[i], newDates)]
      ensures interests == old(interests)
    {
      var existing := events[i].slots;
      var slots := existing;
      var added := false;
      for k := 0 to |newDates|
        invariant slots == existing + Fresh(existing, newDates[..k])
        invariant added == (Fresh(existing, newDates[..k]) != [])
      {
        assert newDates[..k + 1][..k] == newDates[..k];
        if newDates[k] !in existing {
          slots := slots + [newDates[k]];
          added := true;
        }
      }
      assert newDates[..|newDates|] == newDates;
      if added {
        events := events[i := events[i].(slots := slots, isActive := true)];
      } else {
        events := events[i := events[i].(slots := slots)];
      }
    }

    /** `_get_or_create_parent_interest`: the category's row, appended when missing. */
    method GetOrCreateParentInterest() returns (r: Result<nat, DbError>)
      modifies this
      ensures events == old(events)
      ensures match GetOrCreateParent(old(interests), category)
        case Success(v) => r == Success(v.1) && interests == v.0
        case Failure(err) => r == Failure(err) && interests == old(interests)
    {
      var found := OneOrNone(NameMatches(interests, category));
      match found
      case Failure(err) =>
        r := Failure(err);
      case Success(None) =>
        interests := interests + [Interest(category, None)];
        r := Success(|interests| - 1);
      case Success(Some(j)) =>
        r := Success(j);
    }

    /** `_get_or_create_child_interests`: a tag under `parent` per name, created where missing, then the flush. */
    method GetOrCreateChildInterests(names: seq<string>, parent: nat) returns (r: Result<seq<nat>, DbError>)
      modifies this
      ensures events == old(events)
      ensures match GetOrCreateChildren(old(interests), names, parent)
        case Success(v) => r == Success(v.1) && interests == v.0
        case Failure(err) => r == Failure(err) && interests == old(interests)
    {
      if names == [] {
        return Success([]);
      }
      var existing := Existing(interests, names, parent);
      var created: seq<Interest> := [];
      var ids: seq<nat> := [];
      for k := 0 to |names|
        invariant (created, ids) == Resolve(existing, names[..k], parent, |interests|)
      {
        assert names[..k + 1][..k] == names[..k];
        if names[k] in existing {
          ids := ids + [existing[names[k]]];
        } else {
          ids := ids + [|interests| + |created|];
          created := created + [Interest(names[k], Some(parent))];
        }
      }
      assert names[..|names|] == names;
      var grown := interests + created;
      var dup := Duplicate(grown);
      if dup.Some? {
        return Failure(UniqueViolation(dup.value));
      }
      interests := grown;
      r := Success(ids);
    }

    /** The tag ids of `children` added to `current`, one at a time; the category last. */
    method LinkInterests(current: set<nat>, children: seq<nat>, parent: nat) returns (linked: set<nat>)
      ensures linked == current + (Elements(children) + {parent})
    {
      linked := current;
      for k := 0 to |children|
        invariant linked == current + Elements(children[..k])
      {
        assert Elements(children[..k + 1]) == Elements(children[..k]) + {children[k]} by {
          assert children[..k + 1] == children[..k] + [children[k]];
        }
        linked := linked + {children[k]};
      }
      assert children[..|children|] == children;
      linked := linked + {parent};
    }

    /** The two lookups of `_add_or_update_event`: by title and hash, then, for a non-empty description, by title. */
    method FindEvent(title: string, description: string, h: string) returns (found: Result<Option<nat>, DbError>)
      ensures found == Lookup(events, title, description, h)
    {
      found := OneOrNone(KeyMatches(events, title, h));
      if found.Success? && found.value.None? && description != "" {
        found := OneOrNone(TitleMatches(events, title));
      }
    }

    /** The category, then the tags under it: the interest block of `_add_or_update_event`. */
    method ResolveInterests(names: seq<string>) returns (r: Result<(nat, seq<nat>), DbError>)
      requires names != []
      modifies this
      ensures events == old(events)
      ensures match Attach(old(interests), category, names)
        case Success(a) => r.Success? && interests == a.0 && Elements(r.value.1) + {r.value.0} == a.1
        case Failure(err) => r == Failure(err)
    {
      ghost var table := interests;
      AttachFails(table, category, names);
      var parent := GetOrCreateParentInterest();
      if parent.Failure? {
        return Failure(parent.error);
      }
      ghost var pr := GetOrCreateParent(table, category).value;
      var children := GetOrCreateChildInterests(names, parent.value);
      if children.Failure? {
        return Failure(children.error);
      }
      AttachOf(table, category, names, pr, GetOrCreateChildren(pr.0, names, pr.1).value);
      r := Success((parent.value, children.value));
    }

    /** The branch of `_add_or_update_event` for a stored event at `i`. */
    method MergeInto(i: nat, e: ScrapedEvent) returns (r: Result<(), DbError>)
      requires i < |events|
      modifies this
      ensures var d := Description(e);
        var merged := Revised(MergeDates(old(events)[i], e.dateLocations), d, hash(d));
        match Attach(old(interests), category, e.interests)
        case Success(a) => r.Success? && Snapshot() == Catalog(old(events)[i := merged.(interests := merged.interests + a.1)], a.0)
        case Failure(err) => r == Failure(err)
    {
      var description := Description(e);
      var h := hash(description);
      UpdateEventDates(i, e.dateLocations);
      if events[i].description != description {
        events := events[i := events[i].(description := description, hash := h)];
      }
      ghost var merged := Revised(MergeDates(old(events)[i], e.dateLocations), description, h);
      assert events == old(events)[i := merged];
      if e.interests != [] {
        var tags := ResolveInterests(e.interests);
        if tags.Failure? {
          return Failure(tags.error);
        }
        var linked := LinkInterests(events[i].interests, tags.value.1, tags.value.0);
        events := events[i := events[i].(interests := linked)];
      } else {
        assert merged.(interests := merged.interests + {}) == merged;
      }
      r := Success(());
    }

    /** The branch of `_add_or_update_event` for a new event: its showtimes copied one by one. */
    method CreateFrom(e: ScrapedEvent) returns (r: Result<(), DbError>)
      modifies this
      ensures var d := Description(e);
        match Attach(old(interests), category, e.interests)
        case Success(a) => r.Success? && Snapshot() == Catalog(old(events) + [Event(e.title, d, hash(d), true, e.dateLocations, a.1, 0)], a.0)
        case Failure(err) => r == Failure(err)
    {
      var description := Description(e);
      var slots: seq<Slot> := [];
      for k := 0 to |e.dateLocations|
        invariant slots == e.dateLocations[..k]
      {
        assert e.dateLocations[..k + 1] == e.dateLocations[..k] + [e.dateLocations[k]];
        slots := slots + [e.dateLocations[k]];
      }
      assert e.dateLocations[..|e.dateLocations|] == e.dateLocations;
      var tags: set<nat> := {};
      if e.interests != [] {
        var resolved := ResolveInterests(e.interests);
        if resolved.Failure? {
          return Failure(resolved.error);
        }
        tags := Elements(resolved.value.1) + {resolved.value.0};
      }
      events := events + [Event(e.title, description, hash(description), true, slots, tags, 0)];
      r := Success(());
    }

    /**
     * `_add_or_update_event`: on success the catalog is what the model of the
     * call gives; on an error the error is the model's (the transaction that
     * raised it is then rolled back by the caller).
     */
    method AddOrUpdateEvent(e: ScrapedEvent) returns (r: Result<(), DbError>)
      modifies this
      ensures var expected := AddOrUpdate(old(Snapshot()), hash, category, e);
        && (r.Success? <==> expected.Success?)
        && (expected.Success? ==> Snapshot() == expected.value)
        && (expected.Failure? ==> r == Failure(expected.error))
    {
      ghost var before := Snapshot();
      var description := Description(e);
      AddOrUpdateFails(before, hash, category, e);
      var found := FindEvent(e.title, description, hash(description));
      if found.Failure? {
        return Failure(found.error);
      }
      if found.value.Some? {
        r := MergeInto(found.value.value, e);
      } else {
        r := CreateFrom(e);
      }
      if r.Success? {
        AddOrUpdateOf(before, hash, category, e, found.value, Attach(before.interests, category, e.interests).value);
      }
    }

    /**
     * `add_events_from_parser`: parse the listing page (`None` when it came
     * back empty) and apply every event in one transaction; an error rolls
     * the whole batch back.
     */
    method AddEventsFromParser(page: Option<seq<ListingItem>>, fetch: Fetcher) returns (r: Result<(), DbError>)
      modifies this
      ensures var incoming := if page.Some? then ParseEvents(page.value, fetch) else [];
        match AddBatch(old(Snapshot()), hash, category, incoming)
        case Success(c) => r == Success(()) && Snapshot() == c
        case Failure(err) => r == Failure(err) && Snapshot() == old(Snapshot())
    {
      var newEvents: seq<ScrapedEvent> := [];
      if page.Some? {
        ghost var requests;
        newEvents, requests := ParseEventsFromHtml(page.value, fetch);
      }
      var saved := Snapshot();
      for k := 0 to |newEvents|
        invariant AddBatch(saved, hash, category, newEvents) == AddBatch(Snapshot(), hash, category, newEvents[k..])
      {
        ghost var current := Snapshot();
        AddBatchStep(current, hash, category, newEvents, k);
        var step := AddOrUpdateEvent(newEvents[k]);
        if step.Failure? {
          events, interests := saved.events, saved.interests;
          return Failure(step.error);
        }
      }
      assert newEvents[|newEvents|..] == [];
      r := Success(());
    }

    /**
     * `delete_invalid_events`: drop every past showtime, recompute
     * `is_active`, delete the inactive events nobody gave feedback on, and
     * return those.
     */
    method DeleteInvalidEvents(now: int) returns (deleted: seq<Event>)
      modifies this
      ensures events == Survivors(old(events), now)
      ensures deleted == Casualties(old(events), now)
      ensures interests == old(interests)
    {
      var all := events;
      var kept: seq<Event> := [];
      deleted := [];
      for k := 0 to |all|
        invariant kept == Survivors(all[..k], now)
        invariant deleted == Casualties(all[..k], now)
        invariant interests == old(interests)
      {
        SweepStep(all, now, k);
        var upcoming := Upcoming(all[k].slots, now);
        var event := all[k].(slots := upcoming, isActive := upcoming != []);
        if !event.isActive && event.feedback == 0 {
          deleted := deleted + [event];
        } else {
          kept := kept + [event];
        }
      }
      assert all[..|all|] == all;
      events := kept;
    }
  }
}

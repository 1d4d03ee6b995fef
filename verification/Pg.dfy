/**
 Process groups as whole operations on values: the forward map of groups, the per-scope
 index, the world listeners and the per-actor reverse index, what each operation does to
 them, and why the four agree after every sequence of operations. Statuses do not change
 while an operation runs; what happens when they do is the subject of PgLocks.
 */
module Pg {
  import opened PgNames

  const DEFAULT_SCOPE: string := "__default_scope__"
  const ALL_GROUPS_NOTIFICATION: string := "__world_group_"

  datatype GroupState = GroupState(members: set<Actor>, listeners: seq<Actor>)

  datatype ActorRelations = ActorRelations(memberships: set<Key>, groupMonitors: set<Key>, worldMonitors: set<Key>)

  const NO_GROUP := GroupState({}, [])
  const NO_RELATIONS := ActorRelations({}, {}, {})

  datatype View = View(
    groups: map<Key, GroupState>,
    index: map<string, set<string>>,
    world: map<Key, seq<Actor>>,
    relations: map<Actor, ActorRelations>,
    stopping: set<Actor>)          // actors whose status is Stopping or Stopped

  function Group(v: View, k: Key): GroupState { if k in v.groups then v.groups[k] else NO_GROUP }

  function Relations(v: View, a: Actor): ActorRelations { if a in v.relations then v.relations[a] else NO_RELATIONS }

  function World(v: View, k: Key): seq<Actor> { if k in v.world then v.world[k] else [] }

  // ------------------------------------------------------------------ operations

  predicate NoDuplicates(s: seq<Actor>) { forall i, j :: 0 <= i < j < |s| ==> s[i] != s[j] }

  /** `retain(|listener| listener != actor)` */
  function Without(s: seq<Actor>, a: Actor): (r: seq<Actor>)
    ensures forall x :: x in r <==> x in s && x != a
    ensures NoDuplicates(s) ==> NoDuplicates(r)
  {
    if s == [] then []
    else
      var rest := Without(s[1..], a);
      assert forall x :: x in s <==> x == s[0] || x in s[1..];
      assert NoDuplicates(s) ==> NoDuplicates(s[1..]) && s[0] !in s[1..];
      if s[0] == a then rest else [s[0]] + rest
  }

  /** Listen once. */
  function With(s: seq<Actor>, a: Actor): (r: seq<Actor>)
    ensures forall x :: x in r <==> x in s || x == a
    ensures NoDuplicates(s) ==> NoDuplicates(r)
  {
    if a in s then s else s + [a]
  }

  function AddToIndex(index: map<string, set<string>>, k: Key): map<string, set<string>>
  {
    index[k.scope := (if k.scope in index then index[k.scope] else {}) + {k.group}]
  }

  function RemoveFromIndex(index: map<string, set<string>>, k: Key): map<string, set<string>>
  {
    if k.scope !in index then index
    else if index[k.scope] - {k.group} == {} then index - {k.scope}
    else index[k.scope := index[k.scope] - {k.group}]
  }

  /** Store a group, or remove its entry if it has neither members nor listeners. */
  function PutGroup(v: View, k: Key, g: GroupState): View
  {
    v.(groups := if g == NO_GROUP then v.groups - {k} else v.groups[k := g])
  }

  /** Store a group whose members may have gone, keeping the index in step. */
  function PutMembers(v: View, k: Key, g: GroupState): View
  {
    PutGroup(v, k, g).(index := if g.members == {} then RemoveFromIndex(v.index, k) else v.index)
  }

  function PutWorld(v: View, k: Key, listeners: seq<Actor>): View
  {
    v.(world := if listeners == [] then v.world - {k} else v.world[k := listeners])
  }

  function Joined(v: View, actors: seq<Actor>): set<Actor> { set a | a in actors && a !in v.stopping }

  function Join(v: View, k: Key, actors: seq<Actor>): View
  {
    var joined := Joined(v, actors);
    if joined == {} then v
    else
      v.(groups := v.groups[k := Group(v, k).(members := Group(v, k).members + joined)],
         index := AddToIndex(v.index, k),
         relations := JoinRelations(v, k, joined))
  }

  /** The reverse index once a join has recorded some actors. */
  function JoinRelations(v: View, k: Key, joined: set<Actor>): map<Actor, ActorRelations>
  {
    map a | a in v.relations.Keys + joined ::
      if a in joined then Relations(v, a).(memberships := Relations(v, a).memberships + {k}) else v.relations[a]
  }

  function Elements(actors: seq<Actor>): set<Actor> { set a | a in actors }

  function Leave(v: View, k: Key, actors: seq<Actor>): View
  {
    if k !in v.groups then v
    else
      var gone := Elements(actors);
      PutMembers(v, k, v.groups[k].(members := v.groups[k].members - gone)).(relations := LeaveRelations(v, k, gone))
  }

  /** The reverse index once a leave has forgotten some actors. */
  function LeaveRelations(v: View, k: Key, gone: set<Actor>): map<Actor, ActorRelations>
  {
    map a | a in v.relations ::
      if a in gone then v.relations[a].(memberships := v.relations[a].memberships - {k}) else v.relations[a]
  }

  function Monitor(v: View, group: string, a: Actor): View
  {
    var k := Key(DEFAULT_SCOPE, group);
    if a in v.stopping then v
    else
      v.(groups := v.groups[k := Group(v, k).(listeners := With(Group(v, k).listeners, a))],
         relations := v.relations[a := Relations(v, a).(groupMonitors := Relations(v, a).groupMonitors + {k})])
  }

  function MonitorScope(v: View, scope: string, a: Actor): View
  {
    var k := Key(scope, ALL_GROUPS_NOTIFICATION);
    if a in v.stopping then v
    else
      v.(world := v.world[k := With(World(v, k), a)],
         relations := v.relations[a := Relations(v, a).(worldMonitors := Relations(v, a).worldMonitors + {k})])
  }

  function Demonitor(v: View, group: string, a: Actor): View
  {
    var k := Key(DEFAULT_SCOPE, group);
    var v' := if k in v.groups then PutGroup(v, k, v.groups[k].(listeners := Without(v.groups[k].listeners, a))) else v;
    if a in v.relations
    then v'.(relations := v.relations[a := v.relations[a].(groupMonitors := v.relations[a].groupMonitors - {k})])
    else v'
  }

  function DemonitorScope(v: View, scope: string, a: Actor): View
  {
    var k := Key(scope, ALL_GROUPS_NOTIFICATION);
    var v' := if k in v.world then PutWorld(v, k, Without(v.world[k], a)) else v;
    if a in v.relations
    then v'.(relations := v.relations[a := v.relations[a].(worldMonitors := v.relations[a].worldMonitors - {k})])
    else v'
  }

  /** What `demonitor_all` and then `leave_all` leave of an actor that has stopped: the
      groups without it, listened to and joined by the others. */
  function Stop(v: View, a: Actor): View
  {
    View(map k | k in v.groups && Remaining(v, k, a) != NO_GROUP :: Remaining(v, k, a),
         map s | s in v.index && IndexWithout(v, s, a) != {} :: IndexWithout(v, s, a),
         map k | k in v.world && Without(v.world[k], a) != [] :: Without(v.world[k], a),
         v.relations - {a},
         v.stopping + {a})
  }

  function Remaining(v: View, k: Key, a: Actor): GroupState
  {
    GroupState(Group(v, k).members - {a}, Without(Group(v, k).listeners, a))
  }

  function IndexWithout(v: View, s: string, a: Actor): set<string>
    requires s in v.index
  {
    set g | g in v.index[s] && Group(v, Key(s, g)).members - {a} != {}
  }

  // ------------------------------------------------------------------ agreement

  predicate IsMember(v: View, k: Key, a: Actor) { a in Group(v, k).members }

  predicate IsListener(v: View, k: Key, a: Actor) { a in Group(v, k).listeners }

  predicate IsWorldListener(v: View, k: Key, a: Actor) { a in World(v, k) }

  predicate HasMembers(v: View, k: Key) { Group(v, k).members != {} }

  /** No fully empty entry survives, and no actor listens twice. */
  ghost predicate EntriesValid(v: View)
  {
    && (forall k :: k in v.groups ==> v.groups[k] != NO_GROUP)
    && (forall k :: k in v.world ==> v.world[k] != [])
    && (forall k :: NoDuplicates(Group(v, k).listeners))
    && (forall k :: NoDuplicates(World(v, k)))
  }

  predicate InIndex(v: View, k: Key) { k.scope in v.index && k.group in v.index[k.scope] }

  /** The scope index is the set of groups that have members. */
  ghost predicate IndexValid(v: View)
  {
    && (forall s :: s in v.index ==> v.index[s] != {})
    && (forall k :: InIndex(v, k) <==> HasMembers(v, k))
  }

  /** Members, listeners and world listeners correspond one-to-one to the reverse index. */
  ghost predicate Corresponds(v: View)
  {
    && (forall k, a :: IsMember(v, k, a) <==> k in Relations(v, a).memberships)
    && (forall k, a :: IsListener(v, k, a) <==> k in Relations(v, a).groupMonitors)
    && (forall k, a :: IsWorldListener(v, k, a) <==> k in Relations(v, a).worldMonitors)
  }

  /** An actor that has stopped has no entry in the reverse index. */
  ghost predicate StoppedGone(v: View) { forall a :: a in v.stopping ==> a !in v.relations }

  ghost predicate Valid(v: View) { EntriesValid(v) && IndexValid(v) && Corresponds(v) && StoppedGone(v) }

  // ------------------------------------------------------------------ every operation keeps it

  /** The index after members were put back or taken away. */
  lemma IndexUpdates(v: View, k: Key)
    requires forall s :: s in v.index ==> v.index[s] != {}
    ensures var i := AddToIndex(v.index, k);
            (forall s :: s in i ==> i[s] != {})
            && forall q: Key :: (q.scope in i && q.group in i[q.scope]) <==> InIndex(v, q) || q == k
    ensures var i := RemoveFromIndex(v.index, k);
            (forall s :: s in i ==> i[s] != {})
            && forall q: Key :: (q.scope in i && q.group in i[q.scope]) <==> InIndex(v, q) && q != k
  {
    var i := RemoveFromIndex(v.index, k);
    forall q: Key
      ensures (q.scope in i && q.group in i[q.scope]) <==> InIndex(v, q) && q != k
    {
      if k.scope in v.index {
        assert q.group in v.index[k.scope] - {k.group} <==> q.group in v.index[k.scope] && q.group != k.group;
      }
    }
  }

  /** What an operation did, entry by entry: the groups, world listeners and relations it
      touched are those of one key and of some actors, and there the members, the
      listeners or the world listeners changed together with the reverse index. */
  ghost predicate Touches(v: View, w: View, k: Key, actors: set<Actor>)
  {
    && (forall q :: q != k ==> Group(w, q) == Group(v, q) && World(w, q) == World(v, q))
    && (forall b :: b !in actors ==> Relations(w, b) == Relations(v, b))
    && (forall q, b :: b in actors && q != k ==>
          && (q in Relations(w, b).memberships <==> q in Relations(v, b).memberships)
          && (q in Relations(w, b).groupMonitors <==> q in Relations(v, b).groupMonitors)
          && (q in Relations(w, b).worldMonitors <==> q in Relations(v, b).worldMonitors))
    && (forall b :: b !in actors ==>
          && (b in Group(w, k).members <==> b in Group(v, k).members)
          && (b in Group(w, k).listeners <==> b in Group(v, k).listeners)
          && (b in World(w, k) <==> b in World(v, k)))
    && (forall b :: b in actors ==>
          && (b in Group(w, k).members <==> k in Relations(w, b).memberships)
          && (b in Group(w, k).listeners <==> k in Relations(w, b).groupMonitors)
          && (b in World(w, k) <==> k in Relations(w, b).worldMonitors))
  }

  lemma TouchedCorresponds(v: View, w: View, k: Key, actors: set<Actor>)
    requires Corresponds(v) && Touches(v, w, k, actors)
    ensures Corresponds(w)
  {
    hide Group, Relations, World;
    forall q, a
      ensures IsMember(w, q, a) <==> q in Relations(w, a).memberships
      ensures IsListener(w, q, a) <==> q in Relations(w, a).groupMonitors
      ensures IsWorldListener(w, q, a) <==> q in Relations(w, a).worldMonitors
    {
      assert IsMember(v, q, a) <==> q in Relations(v, a).memberships;
      assert IsListener(v, q, a) <==> q in Relations(v, a).groupMonitors;
      assert IsWorldListener(v, q, a) <==> q in Relations(v, a).worldMonitors;
    }
  }

  lemma CorrespondsAt(v: View, k: Key, a: Actor)
    requires Corresponds(v)
    ensures IsMember(v, k, a) <==> k in Relations(v, a).memberships
    ensures IsListener(v, k, a) <==> k in Relations(v, a).groupMonitors
    ensures IsWorldListener(v, k, a) <==> k in Relations(v, a).worldMonitors
  {
    hide Group, Relations, World;
  }

  // ------------------------------------------------------------------ join_scoped

  lemma JoinAccess(v: View, k: Key, actors: seq<Actor>)
    ensures var w := Join(v, k, actors);
            var joined := Joined(v, actors);
            && (forall q :: Group(w, q) == if q == k then Group(v, k).(members := Group(v, k).members + joined) else Group(v, q))
            && (forall b :: Relations(w, b) ==
                  if b in joined then Relations(v, b).(memberships := Relations(v, b).memberships + {k}) else Relations(v, b))
            && w.world == v.world && w.stopping == v.stopping && w.relations.Keys == v.relations.Keys + joined
            && (EntriesValid(v) ==> EntriesValid(w))
  {
    var w := Join(v, k, actors);
    SameWorld(v, w);
    if a :| a in Joined(v, actors) {
      assert a in w.groups[k].members;
    }
  }

  lemma JoinIndex(v: View, k: Key, actors: seq<Actor>)
    requires IndexValid(v)
    ensures IndexValid(Join(v, k, actors))
  {
    var w := Join(v, k, actors);
    JoinAccess(v, k, actors);
    hide Group, Relations, World, EntriesValid;
    if a :| a in Joined(v, actors) {
      IndexUpdates(v, k);
      assert a in Group(w, k).members;
      forall q
        ensures InIndex(w, q) <==> HasMembers(w, q)
      {
        assert InIndex(v, q) <==> HasMembers(v, q);
      }
    }
  }

  lemma JoinMeaning(v: View, k: Key, actors: seq<Actor>)
    requires Valid(v)
    ensures var w := Join(v, k, actors);
            && Valid(w)
            && (forall q, a :: IsMember(w, q, a) <==> IsMember(v, q, a) || (q == k && a in actors && a !in v.stopping))
            && (forall q, a :: IsListener(w, q, a) <==> IsListener(v, q, a))
            && w.world == v.world && w.stopping == v.stopping
  {
    hide Corresponds, Join, Group, Relations, World, EntriesValid, IndexValid;
    var w := Join(v, k, actors);
    SameWorld(v, w);
    JoinAccess(v, k, actors);
    JoinIndex(v, k, actors);
    forall b | b in Joined(v, actors)
      ensures b in Group(v, k).listeners <==> k in Relations(v, b).groupMonitors
      ensures b in World(v, k) <==> k in Relations(v, b).worldMonitors
    {
      CorrespondsAt(v, k, b);
    }
    TouchedCorresponds(v, w, k, Joined(v, actors));
  }

  // ------------------------------------------------------------------ leave_scoped

  lemma LeaveAccess(v: View, k: Key, actors: seq<Actor>)
    requires Corresponds(v)
    ensures var w := Leave(v, k, actors);
            && (forall q :: Group(w, q) == if q == k then Group(v, k).(members := Group(v, k).members - Elements(actors)) else Group(v, q))
            && (forall q :: World(w, q) == World(v, q))
            && (forall b :: Relations(w, b) ==
                  if b in actors then Relations(v, b).(memberships := Relations(v, b).memberships - {k}) else Relations(v, b))
            && (EntriesValid(v) ==> EntriesValid(w))
  {
    var w := Leave(v, k, actors);
    if k !in v.groups {
      assert Group(v, k) == NO_GROUP;
      forall b
        ensures k !in Relations(v, b).memberships
      {
        assert IsMember(v, k, b) <==> k in Relations(v, b).memberships;
      }
      assert forall b :: Relations(v, b).memberships - {k} == Relations(v, b).memberships;
    }
  }

  lemma LeaveTouches(v: View, k: Key, actors: seq<Actor>)
    requires Corresponds(v)
    ensures Touches(v, Leave(v, k, actors), k, Elements(actors))
  {
    hide Leave, Group, Relations, World, EntriesValid;
    LeaveAccess(v, k, actors);
    forall b | b in actors
      ensures b in Group(v, k).listeners <==> k in Relations(v, b).groupMonitors
      ensures b in World(v, k) <==> k in Relations(v, b).worldMonitors
    {
      assert IsListener(v, k, b) <==> k in Relations(v, b).groupMonitors;
      assert IsWorldListener(v, k, b) <==> k in Relations(v, b).worldMonitors;
    }
  }

  lemma LeaveIndex(v: View, k: Key, actors: seq<Actor>)
    requires IndexValid(v) && Corresponds(v)
    ensures IndexValid(Leave(v, k, actors))
  {
    var w := Leave(v, k, actors);
    LeaveAccess(v, k, actors);
    hide Group, Relations, World, Corresponds, EntriesValid;
    if k in v.groups {
      IndexUpdates(v, k);
      forall q
        ensures InIndex(w, q) <==> HasMembers(w, q)
      {
        assert InIndex(v, q) <==> HasMembers(v, q);
      }
    }
  }

  lemma LeaveFrame(v: View, k: Key, actors: seq<Actor>)
    ensures var w := Leave(v, k, actors); w.world == v.world && w.stopping == v.stopping && w.relations.Keys == v.relations.Keys
  {
  }

  lemma LeaveMeaning(v: View, k: Key, actors: seq<Actor>)
    requires Valid(v)
    ensures var w := Leave(v, k, actors);
            && Valid(w)
            && (forall q, a :: IsMember(w, q, a) <==> IsMember(v, q, a) && !(q == k && a in actors))
            && (forall q, a :: IsListener(w, q, a) <==> IsListener(v, q, a))
            && w.world == v.world && w.stopping == v.stopping
  {
    LeaveFrame(v, k, actors);
    hide Corresponds, Leave, Group, Relations, World, EntriesValid, IndexValid;
    var w := Leave(v, k, actors);
    LeaveAccess(v, k, actors);
    LeaveTouches(v, k, actors);
    LeaveIndex(v, k, actors);
    TouchedCorresponds(v, w, k, Elements(actors));
  }

  // ------------------------------------------------------------------ monitor and demonitor

  /** Only listeners changed, so the index is as good as before. */
  lemma SameMembers(v: View, w: View)
    requires IndexValid(v) && w.index == v.index
    requires forall q :: Group(w, q).members == Group(v, q).members
    ensures IndexValid(w)
  {
    forall q
      ensures InIndex(w, q) <==> HasMembers(w, q)
    {
      assert InIndex(v, q) <==> HasMembers(v, q);
    }
  }

  lemma MonitorAccess(v: View, group: string, a: Actor)
    requires a !in v.stopping
    ensures var k := Key(DEFAULT_SCOPE, group);
            var w := Monitor(v, group, a);
            && (forall q :: Group(w, q) == if q == k then Group(v, k).(listeners := With(Group(v, k).listeners, a)) else Group(v, q))
            && (forall b :: Relations(w, b) ==
                  if b == a then Relations(v, b).(groupMonitors := Relations(v, b).groupMonitors + {k}) else Relations(v, b))
            && w.world == v.world && w.index == v.index && w.stopping == v.stopping && w.relations.Keys == v.relations.Keys + {a}
            && (EntriesValid(v) ==> EntriesValid(w))
  {
    var w := Monitor(v, group, a);
    SameWorld(v, w);
    assert a in w.groups[Key(DEFAULT_SCOPE, group)].listeners;
  }

  lemma MonitorMeaning(v: View, group: string, a: Actor)
    requires Valid(v)
    ensures var w := Monitor(v, group, a);
            && Valid(w)
            && (forall q, b :: IsListener(w, q, b) <==>
                  IsListener(v, q, b) || (q == Key(DEFAULT_SCOPE, group) && b == a && a !in v.stopping))
            && (forall q, b :: IsMember(w, q, b) <==> IsMember(v, q, b))
            && w.world == v.world && w.index == v.index && w.stopping == v.stopping
  {
    var w := Monitor(v, group, a);
    var k := Key(DEFAULT_SCOPE, group);
    if a !in v.stopping {
      SameWorld(v, w);
      MonitorAccess(v, group, a);
      assert IsMember(v, k, a) <==> k in Relations(v, a).memberships;
      assert IsWorldListener(v, k, a) <==> k in Relations(v, a).worldMonitors;
      hide Corresponds, Monitor, Group, Relations, World, EntriesValid, IndexValid;
      TouchedCorresponds(v, w, k, {a});
      SameMembers(v, w);
    }
  }

  lemma DemonitorAccess(v: View, group: string, a: Actor)
    ensures var k := Key(DEFAULT_SCOPE, group);
            var w := Demonitor(v, group, a);
            && (forall q :: Group(w, q) == if q == k then Group(v, k).(listeners := Without(Group(v, k).listeners, a)) else Group(v, q))
            && (forall b :: Relations(w, b) ==
                  if b == a then Relations(v, b).(groupMonitors := Relations(v, b).groupMonitors - {k}) else Relations(v, b))
            && w.world == v.world && w.index == v.index && w.stopping == v.stopping && w.relations.Keys == v.relations.Keys
            && (EntriesValid(v) ==> EntriesValid(w))
  {
    SameWorld(v, Demonitor(v, group, a));
    assert NO_RELATIONS.groupMonitors - {Key(DEFAULT_SCOPE, group)} == {};
  }

  lemma DemonitorMeaning(v: View, group: string, a: Actor)
    requires Valid(v)
    ensures var w := Demonitor(v, group, a);
            && Valid(w)
            && (forall q, b :: IsListener(w, q, b) <==> IsListener(v, q, b) && !(q == Key(DEFAULT_SCOPE, group) && b == a))
            && (forall q, b :: IsMember(w, q, b) <==> IsMember(v, q, b))
            && w.world == v.world && w.index == v.index && w.stopping == v.stopping
  {
    hide Corresponds, Demonitor, Group, Relations, World, EntriesValid, IndexValid;
    var w := Demonitor(v, group, a);
    var k := Key(DEFAULT_SCOPE, group);
    SameWorld(v, w);
    DemonitorAccess(v, group, a);
    CorrespondsAt(v, k, a);
    TouchedCorresponds(v, w, k, {a});
    SameMembers(v, w);
  }

  lemma SameWorld(v: View, w: View)
    ensures w.world == v.world ==> forall q :: World(w, q) == World(v, q)
    ensures w.groups == v.groups ==> forall q :: Group(w, q) == Group(v, q)
  {
  }

  lemma MonitorScopeAccess(v: View, scope: string, a: Actor)
    requires a !in v.stopping
    ensures var k := Key(scope, ALL_GROUPS_NOTIFICATION);
            var w := MonitorScope(v, scope, a);
            && (forall q :: World(w, q) == if q == k then With(World(v, k), a) else World(v, q))
            && (forall b :: Relations(w, b) ==
                  if b == a then Relations(v, b).(worldMonitors := Relations(v, b).worldMonitors + {k}) else Relations(v, b))
            && w.groups == v.groups && w.index == v.index && w.stopping == v.stopping && w.relations.Keys == v.relations.Keys + {a}
            && (EntriesValid(v) ==> EntriesValid(w))
  {
    var w := MonitorScope(v, scope, a);
    SameWorld(v, w);
    assert a in w.world[Key(scope, ALL_GROUPS_NOTIFICATION)];
  }

  lemma MonitorScopeMeaning(v: View, scope: string, a: Actor)
    requires Valid(v)
    ensures var w := MonitorScope(v, scope, a);
            && Valid(w)
            && (forall q, b :: IsWorldListener(w, q, b) <==>
                  IsWorldListener(v, q, b) || (q == Key(scope, ALL_GROUPS_NOTIFICATION) && b == a && a !in v.stopping))
            && w.groups == v.groups && w.index == v.index && w.stopping == v.stopping
  {
    var w := MonitorScope(v, scope, a);
    var k := Key(scope, ALL_GROUPS_NOTIFICATION);
    if a !in v.stopping {
      SameWorld(v, w);
      MonitorScopeAccess(v, scope, a);
      assert IsMember(v, k, a) <==> k in Relations(v, a).memberships;
      assert IsListener(v, k, a) <==> k in Relations(v, a).groupMonitors;
      hide Corresponds, MonitorScope, Group, Relations, World, EntriesValid, IndexValid;
      TouchedCorresponds(v, w, k, {a});
      SameMembers(v, w);
    }
  }

  lemma DemonitorScopeAccess(v: View, scope: string, a: Actor)
    ensures var k := Key(scope, ALL_GROUPS_NOTIFICATION);
            var w := DemonitorScope(v, scope, a);
            && (forall q :: World(w, q) == if q == k then Without(World(v, k), a) else World(v, q))
            && (forall b :: Relations(w, b) ==
                  if b == a then Relations(v, b).(worldMonitors := Relations(v, b).worldMonitors - {k}) else Relations(v, b))
            && w.groups == v.groups && w.index == v.index && w.stopping == v.stopping && w.relations.Keys == v.relations.Keys
            && (EntriesValid(v) ==> EntriesValid(w))
  {
    SameWorld(v, DemonitorScope(v, scope, a));
    assert NO_RELATIONS.worldMonitors - {Key(scope, ALL_GROUPS_NOTIFICATION)} == {};
  }

  lemma DemonitorScopeMeaning(v: View, scope: string, a: Actor)
    requires Valid(v)
    ensures var w := DemonitorScope(v, scope, a);
            && Valid(w)
            && (forall q, b :: IsWorldListener(w, q, b) <==>
                  IsWorldListener(v, q, b) && !(q == Key(scope, ALL_GROUPS_NOTIFICATION) && b == a))
            && w.groups == v.groups && w.index == v.index && w.stopping == v.stopping
  {
    hide Corresponds, DemonitorScope, Group, Relations, World, EntriesValid, IndexValid;
    var w := DemonitorScope(v, scope, a);
    var k := Key(scope, ALL_GROUPS_NOTIFICATION);
    SameWorld(v, w);
    DemonitorScopeAccess(v, scope, a);
    CorrespondsAt(v, k, a);
    TouchedCorresponds(v, w, k, {a});
    SameMembers(v, w);
  }

  // ------------------------------------------------------------------ shutdown

  lemma StopAccess(v: View, a: Actor)
    ensures var w := Stop(v, a);
            && (forall q :: Group(w, q) == Remaining(v, q, a))
            && (forall q :: World(w, q) == Without(World(v, q), a))
            && (forall b :: Relations(w, b) == if b == a then NO_RELATIONS else Relations(v, b))
            && (EntriesValid(v) ==> EntriesValid(w))
  {
  }

  lemma StopIndex(v: View, a: Actor)
    requires IndexValid(v)
    ensures IndexValid(Stop(v, a))
  {
    var w := Stop(v, a);
    StopAccess(v, a);
    forall q
      ensures InIndex(w, q) <==> HasMembers(w, q)
    {
      assert q == Key(q.scope, q.group);
      assert InIndex(v, q) <==> HasMembers(v, q);
      if HasMembers(w, q) {
        assert q.group in IndexWithout(v, q.scope, a);
      }
    }
  }

  lemma StopMeaning(v: View, a: Actor)
    requires Valid(v)
    ensures var w := Stop(v, a);
            && Valid(w)
            && (forall q, b :: IsMember(w, q, b) <==> IsMember(v, q, b) && b != a)
            && (forall q, b :: IsListener(w, q, b) <==> IsListener(v, q, b) && b != a)
            && (forall q, b :: IsWorldListener(w, q, b) <==> IsWorldListener(v, q, b) && b != a)
            && a !in w.relations && w.stopping == v.stopping + {a}
  {
    var w := Stop(v, a);
    StopAccess(v, a);
    StopIndex(v, a);
    hide IndexValid, Group, Relations, World, EntriesValid;
    forall k, b
      ensures IsMember(w, k, b) <==> k in Relations(w, b).memberships
      ensures IsListener(w, k, b) <==> k in Relations(w, b).groupMonitors
      ensures IsWorldListener(w, k, b) <==> k in Relations(w, b).worldMonitors
    {
      assert IsMember(v, k, b) <==> k in Relations(v, b).memberships;
      assert IsListener(v, k, b) <==> k in Relations(v, b).groupMonitors;
      assert IsWorldListener(v, k, b) <==> k in Relations(v, b).worldMonitors;
    }
  }

  // ------------------------------------------------------------------ every sequence of operations

  datatype Op =
    | OpJoin(key: Key, actors: seq<Actor>)
    | OpLeave(key: Key, actors: seq<Actor>)
    | OpMonitor(group: string, actor: Actor)
    | OpMonitorScope(scope: string, actor: Actor)
    | OpDemonitor(group: string, actor: Actor)
    | OpDemonitorScope(scope: string, actor: Actor)
    | OpStop(actor: Actor)

  function Apply(v: View, op: Op): View
  {
    match op
    case OpJoin(k, actors) => Join(v, k, actors)
    case OpLeave(k, actors) => Leave(v, k, actors)
    case OpMonitor(group, a) => Monitor(v, group, a)
    case OpMonitorScope(scope, a) => MonitorScope(v, scope, a)
    case OpDemonitor(group, a) => Demonitor(v, group, a)
    case OpDemonitorScope(scope, a) => DemonitorScope(v, scope, a)
    case OpStop(a) => Stop(v, a)
  }

  function ApplyAll(v: View, ops: seq<Op>): View
    decreases |ops|
  {
    if ops == [] then v else ApplyAll(Apply(v, ops[0]), ops[1..])
  }

  const EMPTY := View(map[], map[], map[], map[], {})

  lemma ApplyValid(v: View, op: Op)
    requires Valid(v)
    ensures Valid(Apply(v, op))
  {
    hide Valid, Join, Leave, Monitor, MonitorScope, Demonitor, DemonitorScope, Stop;
    match op
    case OpJoin(k, actors) => JoinMeaning(v, k, actors);
    case OpLeave(k, actors) => LeaveMeaning(v, k, actors);
    case OpMonitor(group, a) => MonitorMeaning(v, group, a);
    case OpMonitorScope(scope, a) => MonitorScopeMeaning(v, scope, a);
    case OpDemonitor(group, a) => DemonitorMeaning(v, group, a);
    case OpDemonitorScope(scope, a) => DemonitorScopeMeaning(v, scope, a);
    case OpStop(a) => StopMeaning(v, a);
  }

  lemma {:induction false} ApplyAllValid(v: View, ops: seq<Op>)
    requires Valid(v)
    ensures Valid(ApplyAll(v, ops))
    decreases |ops|
  {
    hide Valid, Apply;
    if ops != [] {
      ApplyValid(v, ops[0]);
      ApplyAllValid(Apply(v, ops[0]), ops[1..]);
    }
  }

  /** `which_scoped_groups`: the index lookup. */
  function WhichScopedGroups(v: View, scope: string): set<string> { if scope in v.index then v.index[scope] else {} }

  /** After any sequence of operations the index lookup is the forward map, filtered by
      scope and by having members, and the four structures agree. */
  lemma IndexIsFilteredForwardMap(ops: seq<Op>, scope: string)
    ensures var v := ApplyAll(EMPTY, ops);
            && Valid(v)
            && WhichScopedGroups(v, scope) == set k | k in v.groups && k.scope == scope && v.groups[k].members != {} :: k.group
  {
    assert Valid(EMPTY);
    ApplyAllValid(EMPTY, ops);
    var v := ApplyAll(EMPTY, ops);
    var filtered := set k | k in v.groups && k.scope == scope && v.groups[k].members != {} :: k.group;
    forall g
      ensures g in WhichScopedGroups(v, scope) <==> g in filtered
    {
      assert InIndex(v, Key(scope, g)) <==> HasMembers(v, Key(scope, g));
    }
  }

  /** A view is determined by what its entries hold: no empty entry and an exact index
      leave no freedom. */
  lemma Extensional(v: View, w: View)
    requires EntriesValid(v) && EntriesValid(w) && IndexValid(v) && IndexValid(w)
    requires forall q :: Group(v, q) == Group(w, q) && World(v, q) == World(w, q)
    ensures v.groups == w.groups && v.world == w.world && v.index == w.index
  {
    forall q
      ensures q in v.groups <==> q in w.groups
      ensures q in v.world <==> q in w.world
      ensures q in v.groups && q in w.groups ==> v.groups[q] == w.groups[q]
      ensures q in v.world && q in w.world ==> v.world[q] == w.world[q]
    {
      assert Group(v, q) == Group(w, q) && World(v, q) == World(w, q);
    }
    forall s, g
      ensures (s in v.index && g in v.index[s]) <==> (s in w.index && g in w.index[s])
    {
      assert InIndex(v, Key(s, g)) <==> HasMembers(v, Key(s, g));
      assert InIndex(w, Key(s, g)) <==> HasMembers(w, Key(s, g));
    }
    forall s
      ensures s in v.index <==> s in w.index
      ensures s in v.index ==> v.index[s] == w.index[s]
    {
      if s in v.index { var g :| g in v.index[s]; }
      if s in w.index { var g :| g in w.index[s]; }
    }
  }

  lemma PutAccess(v: View, k: Key, g: GroupState)
    ensures forall q :: Group(PutMembers(v, k, g), q) == Group(PutGroup(v, k, g), q) == if q == k then g else Group(v, q)
    ensures PutMembers(v, k, g).world == v.world && PutGroup(v, k, g).world == v.world && PutGroup(v, k, g).index == v.index
    ensures PutMembers(v, k, g).index == if g.members == {} then RemoveFromIndex(v.index, k) else v.index
    ensures EntriesValid(v) && NoDuplicates(g.listeners) ==> EntriesValid(PutMembers(v, k, g)) && EntriesValid(PutGroup(v, k, g))
  {
    SameWorld(v, PutMembers(v, k, g));
    SameWorld(v, PutGroup(v, k, g));
  }

  /** Taking one member or listener out of a group keeps the entries and the index exact. */
  lemma RemoveKeeps(v: View, k: Key, g: GroupState)
    requires EntriesValid(v) && IndexValid(v) && NoDuplicates(g.listeners)
    requires g.members <= Group(v, k).members
    ensures EntriesValid(PutMembers(v, k, g)) && IndexValid(PutMembers(v, k, g))
    ensures g.members == Group(v, k).members ==> EntriesValid(PutGroup(v, k, g)) && IndexValid(PutGroup(v, k, g))
    ensures forall q :: Group(PutMembers(v, k, g), q) == Group(PutGroup(v, k, g), q) == if q == k then g else Group(v, q)
  {
    hide EntriesValid, Group, World, PutMembers, PutGroup, RemoveFromIndex;
    var w := PutMembers(v, k, g);
    var u := PutGroup(v, k, g);
    PutAccess(v, k, g);
    IndexUpdates(v, k);
    forall q
      ensures InIndex(w, q) <==> HasMembers(w, q)
      ensures g.members == Group(v, k).members ==> (InIndex(u, q) <==> HasMembers(u, q))
    {
      assert InIndex(v, q) <==> HasMembers(v, q);
    }
  }
}

/**
 The shared process-group state with its operations as the source runs them: loops over
 actors and keys that update the four maps in place. Each operation is proved to do what
 the corresponding function of Pg says, and to leave the four maps in agreement.
 */
module PgState {
  import opened PgNames
  import opened Pg

  class ProcessGroups {
    var groups: map<Key, GroupState>
    var index: map<string, set<string>>
    var world: map<Key, seq<Actor>>
    var relations: map<Actor, ActorRelations>
    var stopping: set<Actor>

    function Contents(): View
      reads this
    {
      View(groups, index, world, relations, stopping)
    }

    constructor ()
      ensures Contents() == EMPTY && Valid(Contents())
    {
      groups, index, world, relations, stopping := map[], map[], map[], map[], {};
    }

    method AddGroupToIndex(k: Key)
      modifies this`index
      ensures index == AddToIndex(old(index), k)
    {
      if k.scope !in index {
        index := index[k.scope := {}];
      }
      index := index[k.scope := index[k.scope] + {k.group}];
      assert index == AddToIndex(old(index), k);
    }

    method RemoveGroupFromIndex(k: Key)
      modifies this`index
      ensures index == RemoveFromIndex(old(index), k)
    {
      if k.scope in index {
        index := index[k.scope := index[k.scope] - {k.group}];
        if index[k.scope] == {} {
          index := index - {k.scope};
        }
      }
    }

    method JoinScoped(scope: string, group: string, actors: seq<Actor>)
      requires Valid(Contents())
      modifies this`groups, this`index, this`relations
      ensures Contents() == Join(old(Contents()), Key(scope, group), actors)
      ensures Valid(Contents())
    {
      hide Valid, JoinRelations, LeaveRelations;
      var key := Key(scope, group);
      ghost var v := Contents();
      var accepted: set<Actor> := {};
      LeaveRelationsNone(v, key);
      for i := 0 to |actors|
        invariant groups == v.groups && index == v.index && world == v.world && stopping == v.stopping
        invariant accepted == Joined(v, actors[..i])
        invariant relations == JoinRelations(v, key, accepted)
      {
        var a := actors[i];
        assert actors[..i + 1] == actors[..i] + [a];
        if a !in stopping && a !in accepted {
          JoinRelationsStep(v, key, accepted, a);
          var r := if a in relations then relations[a] else NO_RELATIONS;
          relations := relations[a := r.(memberships := r.memberships + {key})];
          accepted := accepted + {a};
        }
        assert accepted == Joined(v, actors[..i + 1]);
      }
      assert actors[..|actors|] == actors;
      if accepted != {} {
        var g := if key in groups then groups[key] else NO_GROUP;
        groups := groups[key := g.(members := g.members + accepted)];
        AddGroupToIndex(key);
      }
      assert Valid(Contents()) by { JoinMeaning(v, key, actors); }
    }

    method LeaveScoped(scope: string, group: string, actors: seq<Actor>)
      requires Valid(Contents())
      modifies this`groups, this`index, this`relations
      ensures Contents() == Leave(old(Contents()), Key(scope, group), actors)
      ensures Valid(Contents())
    {
      hide Valid, JoinRelations, LeaveRelations;
      var key := Key(scope, group);
      ghost var v := Contents();
      if key in groups {
        ghost var gone: set<Actor> := {};
        LeaveRelationsNone(v, key);
        assert v.groups[key].members - gone == v.groups[key].members;
        assert v.groups[key := v.groups[key]] == v.groups;
        for i := 0 to |actors|
          invariant key in groups && key in v.groups
          invariant index == v.index && world == v.world && stopping == v.stopping
          invariant gone == set a | a in actors[..i]
          invariant groups == v.groups[key := v.groups[key].(members := v.groups[key].members - gone)]
          invariant relations == LeaveRelations(v, key, gone)
        {
          var a := actors[i];
          assert actors[..i + 1] == actors[..i] + [a];
          LeaveRelationsStep(v, key, gone, a);
          if a in relations {
            relations := relations[a := relations[a].(memberships := relations[a].memberships - {key})];
          }
          groups := groups[key := groups[key].(members := groups[key].members - {a})];
          gone := gone + {a};
          assert groups[key].members == v.groups[key].members - gone;
        }
        assert gone == Elements(actors) by { assert actors[..|actors|] == actors; }
        ghost var left := v.groups[key].(members := v.groups[key].members - gone);
        assert v.groups[key := left] - {key} == v.groups - {key};
        if groups[key].members == {} {
          RemoveGroupFromIndex(key);
          if groups[key].listeners == [] {
            groups := groups - {key};
          }
        }
        assert Contents() == PutMembers(v, key, left).(relations := LeaveRelations(v, key, gone));
      }
      assert Valid(Contents()) by { LeaveMeaning(v, key, actors); }
    }

    method MonitorGroup(group: string, a: Actor)
      requires Valid(Contents())
      modifies this`groups, this`relations
      ensures Contents() == Monitor(old(Contents()), group, a)
      ensures Valid(Contents())
    {
      hide Valid;
      var key := Key(DEFAULT_SCOPE, group);
      ghost var v := Contents();
      StoppedIsGone(v, a);
      assert Valid(Monitor(v, group, a)) by { MonitorMeaning(v, group, a); }
      relations := relations[a := if a in relations then relations[a] else NO_RELATIONS];
      groups := groups[key := if key in groups then groups[key] else NO_GROUP];
      Overwrite(v.relations, a, Relations(v, a), Relations(Monitor(v, group, a), a));
      Overwrite(v.groups, key, Group(v, key), Group(Monitor(v, group, a), key));
      if a !in stopping {
        if a !in groups[key].listeners {
          groups := groups[key := groups[key].(listeners := groups[key].listeners + [a])];
        }
        relations := relations[a := relations[a].(groupMonitors := relations[a].groupMonitors + {key})];
      } else {
        if groups[key] == NO_GROUP {
          groups := groups - {key};
        }
        if relations[a] == NO_RELATIONS {
          relations := relations - {a};
        }
      }
    }

    method MonitorWholeScope(scope: string, a: Actor)
      requires Valid(Contents())
      modifies this`world, this`relations
      ensures Contents() == MonitorScope(old(Contents()), scope, a)
      ensures Valid(Contents())
    {
      hide Valid;
      var key := Key(scope, ALL_GROUPS_NOTIFICATION);
      ghost var v := Contents();
      StoppedIsGone(v, a);
      assert Valid(MonitorScope(v, scope, a)) by { MonitorScopeMeaning(v, scope, a); }
      relations := relations[a := if a in relations then relations[a] else NO_RELATIONS];
      world := world[key := if key in world then world[key] else []];
      Overwrite(v.relations, a, Relations(v, a), Relations(MonitorScope(v, scope, a), a));
      Overwrite(v.world, key, World(v, key), World(MonitorScope(v, scope, a), key));
      if a !in stopping {
        if a !in world[key] {
          world := world[key := world[key] + [a]];
        }
        relations := relations[a := relations[a].(worldMonitors := relations[a].worldMonitors + {key})];
      } else {
        if world[key] == [] {
          world := world - {key};
        }
        if relations[a] == NO_RELATIONS {
          relations := relations - {a};
        }
      }
    }

    method DemonitorGroup(group: string, a: Actor)
      requires Valid(Contents())
      modifies this`groups, this`relations
      ensures Contents() == Demonitor(old(Contents()), group, a)
      ensures Valid(Contents())
    {
      var key := Key(DEFAULT_SCOPE, group);
      ghost var v := Contents();
      assert Valid(Demonitor(v, group, a)) by { DemonitorMeaning(v, group, a); }
      hide Valid;
      if key in groups {
        groups := groups[key := groups[key].(listeners := Without(groups[key].listeners, a))];
        if groups[key].members == {} && groups[key].listeners == [] {
          groups := groups - {key};
        }
      }
      if a in relations {
        relations := relations[a := relations[a].(groupMonitors := relations[a].groupMonitors - {key})];
      }
      assert groups == Demonitor(v, group, a).groups;
    }

    method DemonitorWholeScope(scope: string, a: Actor)
      requires Valid(Contents())
      modifies this`world, this`relations
      ensures Contents() == DemonitorScope(old(Contents()), scope, a)
      ensures Valid(Contents())
    {
      var key := Key(scope, ALL_GROUPS_NOTIFICATION);
      ghost var v := Contents();
      assert Valid(DemonitorScope(v, scope, a)) by { DemonitorScopeMeaning(v, scope, a); }
      hide Valid;
      if key in world {
        world := world[key := Without(world[key], a)];
        if world[key] == [] {
          world := world - {key};
        }
      }
      if a in relations {
        relations := relations[a := relations[a].(worldMonitors := relations[a].worldMonitors - {key})];
      }
      assert world == DemonitorScope(v, scope, a).world;
    }

    // ---------------------------------------------------------------- shutdown

    /** Stop listening to the groups and scopes that the reverse index lists. */
    method DemonitorAll(a: Actor)
      requires EntriesValid(Contents()) && IndexValid(Contents()) && Corresponds(Contents())
      modifies this`groups, this`world, this`relations
      ensures EntriesValid(Contents()) && IndexValid(Contents())
      ensures forall q :: Group(Contents(), q) == QuietGroup(old(Contents()), q, a)
      ensures forall q :: World(Contents(), q) == Without(World(old(Contents()), q), a)
      ensures a !in old(relations) ==> relations == old(relations)
      ensures a in old(relations) ==> relations == old(relations)[a := ActorRelations(old(relations)[a].memberships, {}, {})]
    {
      ghost var v := Contents();
      NotListening(v, a);
      if a !in relations {
        return;
      }
      var groupMonitors, worldMonitors := relations[a].groupMonitors, relations[a].worldMonitors;
      relations := relations[a := relations[a].(groupMonitors := {}, worldMonitors := {})];
      Unrelated(v, Contents());
      hide EntriesValid, IndexValid, Corresponds, Group, World;
      DropGroupMonitors(groupMonitors, a);
      DropWorldMonitors(worldMonitors, a);
    }

    method DropGroupMonitors(groupMonitors: set<Key>, a: Actor)
      requires EntriesValid(Contents()) && IndexValid(Contents())
      modifies this`groups
      ensures EntriesValid(Contents()) && IndexValid(Contents())
      ensures forall q :: Group(Contents(), q) ==
                if q in groupMonitors then QuietGroup(old(Contents()), q, a) else Group(old(Contents()), q)
      ensures forall q :: World(Contents(), q) == World(old(Contents()), q)
    {
      ghost var v := Contents();
      var todo := groupMonitors;
      while todo != {}
        invariant todo <= groupMonitors
        invariant EntriesValid(Contents()) && IndexValid(Contents())
        invariant forall q :: Group(Contents(), q) ==
                    if q in groupMonitors && q !in todo then QuietGroup(v, q, a) else Group(v, q)
        decreases todo
      {
        hide EntriesValid, IndexValid, Group;
        var key :| key in todo;
        RemoveListener(key, a);
        todo := todo - {key};
      }
      SameWorld(v, Contents());
    }

    method DropWorldMonitors(worldMonitors: set<Key>, a: Actor)
      requires EntriesValid(Contents()) && IndexValid(Contents())
      modifies this`world
      ensures EntriesValid(Contents()) && IndexValid(Contents())
      ensures forall q :: World(Contents(), q) ==
                if q in worldMonitors then Without(World(old(Contents()), q), a) else World(old(Contents()), q)
      ensures forall q :: Group(Contents(), q) == Group(old(Contents()), q)
    {
      ghost var v := Contents();
      var todo := worldMonitors;
      while todo != {}
        invariant todo <= worldMonitors
        invariant EntriesValid(Contents()) && IndexValid(Contents())
        invariant forall q :: World(Contents(), q) ==
                    if q in worldMonitors && q !in todo then Without(World(v, q), a) else World(v, q)
        decreases todo
      {
        hide EntriesValid, IndexValid, World;
        var key :| key in todo;
        RemoveWorldListener(key, a);
        todo := todo - {key};
      }
      SameWorld(v, Contents());
    }

    /** The body of the first loop of `demonitor_all`. */
    method RemoveListener(key: Key, a: Actor)
      requires EntriesValid(Contents()) && IndexValid(Contents())
      modifies this`groups
      ensures EntriesValid(Contents()) && IndexValid(Contents())
      ensures forall q :: Group(Contents(), q) == if q == key then QuietGroup(old(Contents()), q, a) else Group(old(Contents()), q)
    {
      ghost var v := Contents();
      if key in groups {
        ghost var g := groups[key].(listeners := Without(groups[key].listeners, a));
        assert NoDuplicates(Group(v, key).listeners);
        RemoveKeeps(v, key, g);
        groups := groups[key := groups[key].(listeners := Without(groups[key].listeners, a))];
        if groups[key].members == {} && groups[key].listeners == [] {
          groups := groups - {key};
        }
        assert groups == PutGroup(v, key, g).groups;
      } else {
        assert Group(v, key) == NO_GROUP;
      }
    }

    method RemoveWorldListener(key: Key, a: Actor)
      requires EntriesValid(Contents()) && IndexValid(Contents())
      modifies this`world
      ensures EntriesValid(Contents()) && IndexValid(Contents())
      ensures forall q :: Group(Contents(), q) == Group(old(Contents()), q)
      ensures forall q :: World(Contents(), q) == if q == key then Without(World(old(Contents()), q), a) else World(old(Contents()), q)
    {
      ghost var v := Contents();
      if key in world {
        world := world[key := Without(world[key], a)];
        if world[key] == [] {
          world := world - {key};
        }
      }
      assert forall q :: World(Contents(), q) == if q == key then Without(World(v, q), a) else World(v, q);
      SameWorld(v, Contents());
      SameIndex(v, Contents());
    }

    /** The body of the loop of `leave_all`. */
    method RemoveMember(key: Key, a: Actor)
      requires EntriesValid(Contents()) && IndexValid(Contents())
      modifies this`groups, this`index
      ensures EntriesValid(Contents()) && IndexValid(Contents())
      ensures forall q :: Group(Contents(), q) ==
                if q == key then Group(old(Contents()), q).(members := Group(old(Contents()), q).members - {a})
                else Group(old(Contents()), q)
    {
      ghost var v := Contents();
      if key in groups && a in groups[key].members {
        ghost var g := groups[key].(members := groups[key].members - {a});
        assert NoDuplicates(Group(v, key).listeners);
        RemoveKeeps(v, key, g);
        groups := groups[key := groups[key].(members := groups[key].members - {a})];
        if groups[key].members == {} {
          RemoveGroupFromIndex(key);
          if groups[key].listeners == [] {
            groups := groups - {key};
          }
        }
        assert Contents() == PutMembers(v, key, g) by { assert groups == PutMembers(v, key, g).groups; }
      } else {
        assert Group(v, key).members - {a} == Group(v, key).members;
      }
    }

    /** Leave the groups that the reverse index lists, and remove its entry. */
    method LeaveAll(a: Actor)
      requires EntriesValid(Contents()) && IndexValid(Contents())
      requires a in relations ==> relations[a].groupMonitors == {} && relations[a].worldMonitors == {}
      requires forall q :: q !in Relations(Contents(), a).memberships ==> a !in Group(Contents(), q).members
      modifies this`groups, this`index, this`relations
      ensures EntriesValid(Contents()) && IndexValid(Contents())
      ensures forall q :: Group(Contents(), q) == Group(old(Contents()), q).(members := Group(old(Contents()), q).members - {a})
      ensures relations == old(relations) - {a}
    {
      ghost var v := Contents();
      assert forall q :: q !in Relations(v, a).memberships ==> Group(v, q).members - {a} == Group(v, q).members;
      if a !in relations {
        assert relations - {a} == relations;
        return;
      }
      var memberships := relations[a].memberships;
      relations := relations[a := relations[a].(memberships := {})];
      SameWorld(v, Contents());
      SameIndex(v, Contents());
      hide EntriesValid, IndexValid, Group, World;
      while memberships != {}
        invariant a in relations && relations == v.relations[a := NO_RELATIONS]
        invariant EntriesValid(Contents()) && IndexValid(Contents())
        invariant forall q :: q in memberships ==> Group(Contents(), q) == Group(v, q)
        invariant forall q :: q !in memberships ==> Group(Contents(), q) == Group(v, q).(members := Group(v, q).members - {a})
        decreases memberships
      {
        var key :| key in memberships;
        RemoveMember(key, a);
        memberships := memberships - {key};
      }
      ghost var w := Contents();
      if relations[a] == NO_RELATIONS {
        relations := relations - {a};
      }
      Unrelated(w, Contents());
      assert relations == v.relations - {a};
    }

    /** `set_status(Stopping)`: publish the status, then clean up. */
    method Shutdown(a: Actor)
      requires Valid(Contents()) && a !in stopping
      modifies this
      ensures Contents() == Stop(old(Contents()), a)
      ensures Valid(Contents())
    {
      ghost var v := Contents();
      NotListening(v, a);
      stopping := stopping + {a};
      Unrelated(v, Contents());
      StopAccess(v, a);
      StopIndex(v, a);
      assert Valid(Stop(v, a)) by { StopMeaning(v, a); }
      SameCorrespondence(v, Contents());
      hide EntriesValid, IndexValid, Corresponds, Group, World, Valid;
      DemonitorAll(a);
      ghost var quiet := Contents();
      assert Relations(quiet, a).memberships == Relations(v, a).memberships;
      LeaveAll(a);
      LeaveKeepsWorld(quiet, Contents());
      assert forall q :: Group(Contents(), q) == Remaining(v, q, a);
      EntriesOf(Stop(v, a));
      Extensional(Contents(), Stop(v, a));
    }
  }

  lemma Unrelated(v: View, w: View)
    requires w.groups == v.groups && w.index == v.index && w.world == v.world
    ensures EntriesValid(v) ==> EntriesValid(w)
    ensures IndexValid(v) ==> IndexValid(w)
    ensures forall q :: Group(w, q) == Group(v, q) && World(w, q) == World(v, q)
  {
    SameWorld(v, w);
    if IndexValid(v) { SameIndex(v, w); }
  }

  lemma SameCorrespondence(v: View, w: View)
    requires Corresponds(v) && w == v.(stopping := w.stopping)
    ensures Corresponds(w)
  {
    forall k, a
      ensures IsMember(w, k, a) <==> k in Relations(w, a).memberships
      ensures IsListener(w, k, a) <==> k in Relations(w, a).groupMonitors
      ensures IsWorldListener(w, k, a) <==> k in Relations(w, a).worldMonitors
    {
      assert IsMember(v, k, a) <==> k in Relations(v, a).memberships;
      assert IsListener(v, k, a) <==> k in Relations(v, a).groupMonitors;
      assert IsWorldListener(v, k, a) <==> k in Relations(v, a).worldMonitors;
    }
  }

  lemma LeaveKeepsWorld(v: View, w: View)
    requires w.world == v.world
    ensures forall q :: World(w, q) == World(v, q)
  {
  }

  lemma EntriesOf(v: View)
    requires Valid(v)
    ensures EntriesValid(v) && IndexValid(v)
  {
  }

  /** Creating an entry and then overwriting or removing it. */
  lemma Overwrite<K, V>(m: map<K, V>, k: K, x: V, y: V)
    ensures m[k := x][k := y] == m[k := y]
    ensures k !in m ==> m[k := x] - {k} == m
    ensures k in m && m[k] == x ==> m[k := x] == m
  {
  }

  /** A group that an actor no longer listens to. */
  function QuietGroup(v: View, k: Key, a: Actor): GroupState
  {
    Group(v, k).(listeners := Without(Group(v, k).listeners, a))
  }

  lemma StoppedIsGone(v: View, a: Actor)
    requires Valid(v)
    ensures a in v.stopping ==> a !in v.relations
    ensures forall k :: k in v.groups ==> v.groups[k] != NO_GROUP
    ensures forall k :: k in v.world ==> v.world[k] != []
  {
  }

  lemma SameIndex(v: View, w: View)
    requires IndexValid(v) && w.groups == v.groups && w.index == v.index
    ensures IndexValid(w)
  {
    SameWorld(v, w);
    SameMembers(v, w);
  }

  lemma {:induction false} WithoutAbsent(s: seq<Actor>, a: Actor)
    requires a !in s
    ensures Without(s, a) == s
  {
    if s != [] {
      WithoutAbsent(s[1..], a);
    }
  }

  /** Where the reverse index lists nothing, removing the actor changes nothing. */
  lemma NotListening(v: View, a: Actor)
    requires Corresponds(v)
    ensures forall q :: q !in Relations(v, a).groupMonitors ==> QuietGroup(v, q, a) == Group(v, q)
    ensures forall q :: q !in Relations(v, a).worldMonitors ==> Without(World(v, q), a) == World(v, q)
    ensures forall q :: q !in Relations(v, a).memberships ==> a !in Group(v, q).members
  {
    forall q
      ensures q !in Relations(v, a).groupMonitors ==> QuietGroup(v, q, a) == Group(v, q)
      ensures q !in Relations(v, a).worldMonitors ==> Without(World(v, q), a) == World(v, q)
      ensures q !in Relations(v, a).memberships ==> a !in Group(v, q).members
    {
      assert IsListener(v, q, a) <==> q in Relations(v, a).groupMonitors;
      assert IsWorldListener(v, q, a) <==> q in Relations(v, a).worldMonitors;
      assert IsMember(v, q, a) <==> q in Relations(v, a).memberships;
      if q !in Relations(v, a).groupMonitors { WithoutAbsent(Group(v, q).listeners, a); }
      if q !in Relations(v, a).worldMonitors { WithoutAbsent(World(v, q), a); }
    }
  }

  lemma JoinRelationsStep(v: View, k: Key, joined: set<Actor>, a: Actor)
    requires a !in joined
    ensures a in JoinRelations(v, k, joined) <==> a in v.relations
    ensures a in v.relations ==> JoinRelations(v, k, joined)[a] == v.relations[a]
    ensures JoinRelations(v, k, joined)[a := Relations(v, a).(memberships := Relations(v, a).memberships + {k})]
            == JoinRelations(v, k, joined + {a})
  {
  }

  lemma LeaveRelationsNone(v: View, k: Key)
    ensures LeaveRelations(v, k, {}) == v.relations
    ensures JoinRelations(v, k, {}) == v.relations
  {
  }

  lemma LeaveRelationsStep(v: View, k: Key, gone: set<Actor>, a: Actor)
    ensures a in LeaveRelations(v, k, gone) <==> a in v.relations
    ensures a !in v.relations ==> LeaveRelations(v, k, gone) == LeaveRelations(v, k, gone + {a})
    ensures a in v.relations ==>
              var r := LeaveRelations(v, k, gone);
              r[a := r[a].(memberships := r[a].memberships - {k})] == LeaveRelations(v, k, gone + {a})
  {
    if a in v.relations {
      assert (v.relations[a].memberships - {k}) - {k} == v.relations[a].memberships - {k};
    }
  }
}

/**
 JSON Merge Patch (crates/floatile-ui-schema/src/patch.rs:17-38) against the algorithm of section 2
 of RFC 7386.
 */
module Patch {
  import opened Prelude

  /** A JSON value. Numbers are opaque tokens: a merge copies them and never looks inside. */
  datatype Json =
    | Null
    | Bool(b: bool)
    | Number(n: int)
    | String(s: string)
    | Array(items: seq<Json>)
    | Object(members: map<string, Json>)

  type Members = map<string, Json>

  function MembersOf(j: Json): Members
  {
    if j.Object? then j.members else map[]
  }

  function MemberOrNull(m: Members, key: string): Json
  {
    if key in m then m[key] else Null
  }

  /** The recursive MergePatch of RFC 7386; an undefined target is treated like a non-object. */
  function MergePatch(target: Json, patch: Json): Json
    decreases patch
  {
    if !patch.Object? then patch
    else
      var had := MembersOf(target);
      Object(map key |
               key in had.Keys + patch.members.Keys &&
               !(key in patch.members && patch.members[key].Null?) ::
               if key in patch.members then MergePatch(MemberOrNull(had, key), patch.members[key]) else had[key])
  }

  /** The members after the patch keys in `done` were processed and the others were not. */
  ghost function Progress(had: Members, patch: Members, done: set<string>): Members
  {
    map key |
      key in had.Keys + patch.Keys &&
      (if key in done && key in patch then !patch[key].Null? else key in had) ::
      if key in done && key in patch then MergePatch(MemberOrNull(had, key), patch[key]) else had[key]
  }

  lemma ProgressStep(had: Members, patch: Members, done: set<string>, key: string)
    requires key in patch && key !in done
    ensures var before, after := Progress(had, patch, done), Progress(had, patch, done + {key});
            && MemberOrNull(before, key) == MemberOrNull(had, key)
            && after == if patch[key].Null? then before - {key}
                        else before[key := MergePatch(MemberOrNull(had, key), patch[key])]
  {
  }

  lemma ProgressEnds(target: Json, patch: Json)
    requires patch.Object?
    ensures Progress(MembersOf(target), patch.members, {}) == MembersOf(target)
    ensures MergePatch(target, patch) == Object(Progress(MembersOf(target), patch.members, patch.members.Keys))
  {
  }

  /**
   `merge_patch`. The borrow of `target` is exclusive, so the value it holds afterwards is an
   out-parameter. Keys are visited in an arbitrary order; the result does not depend on it.
   */
  method Merge(target: Json, patch: Json) returns (merged: Json)
    ensures merged == MergePatch(target, patch)
    decreases patch
  {
    if !patch.Object? {
      return patch;
    }
    var members: Members := MembersOf(target);
    var remaining := patch.members.Keys;
    ghost var done: set<string> := {};
    ProgressEnds(target, patch);
    while remaining != {}
      invariant remaining !! done && remaining + done == patch.members.Keys
      invariant members == Progress(MembersOf(target), patch.members, done)
      decreases |remaining|
    {
      var key :| key in remaining;
      var value := patch.members[key];
      ProgressStep(MembersOf(target), patch.members, done, key);
      if value.Null? {
        members := members - {key};
      } else {
        var child := Merge(MemberOrNull(members, key), value);
        members := members[key := child];
      }
      remaining, done := remaining - {key}, done + {key};
    }
    assert done == patch.members.Keys;
    merged := Object(members);
  }

  // ---- Idempotence ----

  /** Applying the same patch again changes nothing. */
  lemma {:induction false} MergeIdempotent(target: Json, patch: Json)
    ensures MergePatch(MergePatch(target, patch), patch) == MergePatch(target, patch)
    decreases patch
  {
    if patch.Object? {
      var once := MergePatch(target, patch);
      var twice := MergePatch(once, patch);
      forall key | key in once.members.Keys + twice.members.Keys
        ensures key in once.members && key in twice.members && twice.members[key] == once.members[key]
      {
        if key in patch.members {
          MergeIdempotent(MemberOrNull(MembersOf(target), key), patch.members[key]);
        }
      }
      assert once.members.Keys == twice.members.Keys;
    }
  }

  // ---- What a patch leaves alone ----

  /** The value at a path of member names, if every step exists. */
  function Lookup(j: Json, path: seq<string>): Option<Json>
  {
    if path == [] then Some(j)
    else if j.Object? && path[0] in j.members then Lookup(j.members[path[0]], path[1..])
    else None
  }

  /** The patch speaks about the path: it names the path itself, a prefix or an extension of it. */
  predicate Touches(patch: Json, path: seq<string>)
    decreases patch
  {
    !patch.Object? || path == [] || (path[0] in patch.members && Touches(patch.members[path[0]], path[1..]))
  }

  /** Every path the patch does not touch keeps its value, or its absence. */
  lemma {:induction false} MergeFrame(target: Json, patch: Json, path: seq<string>)
    requires !Touches(patch, path)
    ensures Lookup(MergePatch(target, patch), path) == Lookup(target, path)
    decreases patch
  {
    var key := path[0];
    if key in patch.members {
      MergeFrame(MemberOrNull(MembersOf(target), key), patch.members[key], path[1..]);
    }
  }

  /** A path the patch spells out down to a null is absent afterwards. */
  lemma {:induction false} MergeDeletes(target: Json, patch: Json, path: seq<string>)
    requires path != [] && Lookup(patch, path) == Some(Null)
    ensures Lookup(MergePatch(target, patch), path) == None
    decreases patch
  {
    if |path| > 1 {
      MergeDeletes(MemberOrNull(MembersOf(target), path[0]), patch.members[path[0]], path[1..]);
    }
  }

  // ---- Which states a patch can reach ----

  /** No object member outside arrays is null. */
  predicate NullFree(j: Json)
  {
    j.Object? ==> forall key | key in j.members :: !j.members[key].Null? && NullFree(j.members[key])
  }

  /** The patch that turns `from` into the object `goal`. */
  function Difference(from: Json, goal: Json): Json
    decreases goal
  {
    if !goal.Object? then goal
    else
      var had := MembersOf(from);
      Object(map key | key in had.Keys + goal.members.Keys ::
               if key in goal.members then Difference(MemberOrNull(had, key), goal.members[key]) else Null)
  }

  lemma {:induction false} DifferenceReaches(from: Json, goal: Json)
    requires NullFree(goal)
    ensures MergePatch(from, Difference(from, goal)) == goal
    decreases goal
  {
    if goal.Object? {
      var patch := Difference(from, goal);
      var reached := MergePatch(from, patch);
      forall key | key in reached.members.Keys + goal.members.Keys
        ensures key in reached.members && key in goal.members && reached.members[key] == goal.members[key]
      {
        if key in goal.members {
          DifferenceReaches(MemberOrNull(MembersOf(from), key), goal.members[key]);
        }
      }
      assert reached.members.Keys == goal.members.Keys;
    }
  }

  /** Patching a null-free value with an object patch keeps it null-free. */
  lemma {:induction false} MergeKeepsNullFree(target: Json, patch: Json)
    requires NullFree(target)
    ensures NullFree(MergePatch(target, patch))
    decreases patch
  {
    if patch.Object? {
      var had, merged := MembersOf(target), MergePatch(target, patch);
      forall key | key in merged.members
        ensures !merged.members[key].Null? && NullFree(merged.members[key])
      {
        if key in patch.members {
          MergeKeepsNullFree(MemberOrNull(had, key), patch.members[key]);
        }
      }
    }
  }

  ghost predicate ReachableByObjectPatch(from: Json, goal: Json)
  {
    exists patch: Json :: patch.Object? && MergePatch(from, patch) == goal
  }

  /**
   An object can be reached by one object patch from every state exactly when none of its members
   outside arrays is null; a null member cannot even be reached from the empty state.
   */
  lemma {:induction false} ReachableIffNullFree(goal: Json)
    requires goal.Object?
    ensures NullFree(goal) <==> forall from: Json :: ReachableByObjectPatch(from, goal)
    ensures NullFree(goal) <==> ReachableByObjectPatch(Object(map[]), goal)
  {
    if NullFree(goal) {
      forall from: Json
        ensures ReachableByObjectPatch(from, goal)
      {
        DifferenceReaches(from, goal);
        assert Difference(from, goal).Object?;
      }
    }
    if ReachableByObjectPatch(Object(map[]), goal) {
      var patch: Json :| patch.Object? && MergePatch(Object(map[]), patch) == goal;
      MergeKeepsNullFree(Object(map[]), patch);
    }
  }
}

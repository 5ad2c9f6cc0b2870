/**
 JSON values and the merge of section 2 of RFC 7396, which the operator applies to the
 manifest it fetched from wadm.
 */
module MergePatch {
  import opened Wrappers

  datatype Json =
    | Null
    | Bool(b: bool)
    | Number(digits: string)
    | String(s: string)
    | Array(items: seq<Json>)
    | Object(members: map<string, Json>)

  /** The members a merge starts from: a target that is not an object counts as empty. */
  function BaseMembers(target: Json): map<string, Json> {
    if target.Object? then target.members else map[]
  }

  /** The value a merge starts from at one member: a missing member counts as null. */
  function MemberOrNull(members: map<string, Json>, key: string): Json {
    if key in members then members[key] else Null
  }

  /** Closed form of the merge: every member of the result at once. */
  function Merge(target: Json, patch: Json): Json
    decreases patch
  {
    if !patch.Object? then
      patch
    else
      var base := BaseMembers(target);
      Object(map key | key in base.Keys + patch.members.Keys
                       && (key in patch.members ==> patch.members[key] != Null)
               :: if key in patch.members
                  then Merge(MemberOrNull(base, key), patch.members[key])
                  else base[key])
  }

  /** No object reachable through objects alone has a null member. */
  predicate NullFree(j: Json) {
    j.Object? ==> forall key :: key in j.members ==> j.members[key] != Null && NullFree(j.members[key])
  }

  /**
   The procedure of RFC 7396 as a loop that takes the members of the patch one at a time, in
   any order: each step removes a member or merges into it. The order does not show.
   */
  method MergeInPlace(target: Json, patch: Json) returns (merged: Json)
    ensures merged == Merge(target, patch)
    decreases patch
  {
    if !patch.Object? {
      return patch;
    }
    var members := BaseMembers(target);
    var todo := patch.members.Keys;
    var goal := Merge(target, patch).members;
    while todo != {}
      invariant todo <= patch.members.Keys
      invariant forall key | key !in todo ::
                  (key in members <==> key in goal) && (key in members ==> members[key] == goal[key])
      invariant forall key | key in todo ::
                  MemberOrNull(members, key) == MemberOrNull(BaseMembers(target), key)
      decreases todo
    {
      var key :| key in todo;
      if patch.members[key] == Null {
        members := members - {key};
      } else {
        var value := MergeInPlace(MemberOrNull(members, key), patch.members[key]);
        members := members[key := value];
      }
      todo := todo - {key};
    }
    assert members == goal;
    merged := Object(members);
  }

  /** Applying the same patch a second time changes nothing. */
  lemma {:induction false} MergeIdempotent(target: Json, patch: Json)
    ensures Merge(Merge(target, patch), patch) == Merge(target, patch)
    decreases patch
  {
    if patch.Object? {
      var once := Merge(target, patch);
      var twice := Merge(once, patch);
      forall key | key in patch.members && patch.members[key] != Null
        ensures twice.members[key] == once.members[key]
      {
        MergeIdempotent(MemberOrNull(BaseMembers(target), key), patch.members[key]);
      }
      assert twice.members == once.members;
    }
  }

  /** An object patch keeps a null-free target null-free, whatever nulls the patch holds. */
  lemma {:induction false} MergeKeepsNullFree(target: Json, patch: Json)
    requires patch.Object?
    requires NullFree(target)
    ensures NullFree(Merge(target, patch))
    decreases patch
  {
    var base := BaseMembers(target);
    var merged := Merge(target, patch);
    forall key | key in merged.members
      ensures merged.members[key] != Null && NullFree(merged.members[key])
    {
      if key !in patch.members {
        assert key in target.members;
      } else {
        assert merged.members[key] == Merge(MemberOrNull(base, key), patch.members[key]);
        if patch.members[key].Object? {
          MergeKeepsNullFree(MemberOrNull(base, key), patch.members[key]);
        }
      }
    }
  }

  // ---------------------------------------------------------------- the result of a merge, path by path

  /** The value at a path of object keys; None where the path leads out of the objects. */
  function At(j: Json, path: seq<string>): Option<Json> {
    if path == [] then Some(j)
    else if j.Object? && path[0] in j.members then At(j.members[path[0]], path[1..])
    else None
  }

  predicate IsObject(place: Option<Json>) {
    place.Some? && place.value.Object?
  }

  /** The same value at a place, or an object at both: what is in the objects shows at longer paths. */
  predicate SamePlace(a: Option<Json>, b: Option<Json>) {
    if IsObject(a) || IsObject(b) then IsObject(a) && IsObject(b) else a == b
  }

  /** On the way along the path the patch holds a value that is not an object. */
  predicate CutsOff(patch: Json, path: seq<string>) {
    exists n :: 0 <= n < |path| && At(patch, path[..n]).Some? && !IsObject(At(patch, path[..n]))
  }

  /**
   What a patch makes of a place at which the target holds something: a value of the patch that is
   not an object stands there exactly, an object makes an object, null removes; below such values
   there is nothing; what the patch does not name stays as the target had it.
   */
  predicate PatchedPlace(result: Option<Json>, kept: Option<Json>, patch: Json, path: seq<string>) {
    match At(patch, path)
    case Some(value) =>
      if value.Object? then IsObject(result)
      else if value == Null && path != [] then result == None
      else result == Some(value)
    case None => if CutsOff(patch, path) then result == None else SamePlace(result, kept)
  }

  /** A step down the path: the patch cuts it off here, or its member does further down. */
  lemma CutsOffStep(patch: Json, path: seq<string>)
    requires path != []
    ensures CutsOff(patch, path)
       <==> if patch.Object? then path[0] in patch.members && CutsOff(patch.members[path[0]], path[1..]) else true
  {
    if !patch.Object? {
      assert At(patch, path[..0]) == Some(patch);
    } else {
      var key, rest := path[0], path[1..];
      forall n | 0 < n <= |path|
        ensures At(patch, path[..n]) == if key in patch.members then At(patch.members[key], rest[..n - 1]) else None
      {
        assert path[..n][0] == key && path[..n][1..] == rest[..n - 1];
      }
      if key in patch.members && CutsOff(patch.members[key], rest) {
        var n :| && 0 <= n < |rest| && At(patch.members[key], rest[..n]).Some?
                 && !IsObject(At(patch.members[key], rest[..n]));
        assert At(patch, path[..n + 1]) == At(patch.members[key], rest[..n]);
      }
      if CutsOff(patch, path) {
        var n :| 0 <= n < |path| && At(patch, path[..n]).Some? && !IsObject(At(patch, path[..n]));
        assert n > 0 && key in patch.members;
        assert At(patch.members[key], rest[..n - 1]) == At(patch, path[..n]);
      }
    }
  }

  /** Every place of a merge is as the patch and the target say. */
  lemma {:induction false} MergeByPath(target: Json, patch: Json, path: seq<string>)
    ensures PatchedPlace(At(Merge(target, patch), path), At(target, path), patch, path)
    decreases |path|
  {
    if path != [] {
      CutsOffStep(patch, path);
      if patch.Object? && path[0] in patch.members && patch.members[path[0]] != Null {
        var key, rest := path[0], path[1..];
        var value := MemberOrNull(BaseMembers(target), key);
        MergeByPath(value, patch.members[key], rest);
        if rest != [] && !(target.Object? && key in target.members) {
          assert At(value, rest) == None == At(target, path);
        }
      } else if patch.Object? && path[0] in patch.members {
        assert path[0] !in Merge(target, patch).members;
        if path[1..] == [] {
          assert At(patch, path) == At(Null, []);
        } else {
          CutsOffStep(Null, path[1..]);
          assert At(patch, path) == At(Null, path[1..]) == None;
        }
      } else if patch.Object? && target.Object? && path[0] in target.members {
        assert Merge(target, patch).members[path[0]] == target.members[path[0]];
      }
    }
  }

  /** A document is what stands at its paths. */
  lemma {:induction false} EqualByPath(a: Json, b: Json)
    requires forall path :: SamePlace(At(a, path), At(b, path))
    ensures a == b
    decreases a
  {
    assert SamePlace(At(a, []), At(b, []));
    if a.Object? {
      forall key ensures key in a.members <==> key in b.members {
        assert SamePlace(At(a, [key]), At(b, [key]));
        assert key in a.members ==> At(a, [key]) == At(a.members[key], []);
        assert key in b.members ==> At(b, [key]) == At(b.members[key], []);
      }
      forall key | key in a.members ensures a.members[key] == b.members[key] {
        forall path ensures SamePlace(At(a.members[key], path), At(b.members[key], path)) {
          var longer := [key] + path;
          assert longer[0] == key && longer[1..] == path;
          assert SamePlace(At(a, longer), At(b, longer));
        }
        EqualByPath(a.members[key], b.members[key]);
      }
      assert a.members == b.members;
    }
  }

  lemma PlaceIsDetermined(a: Option<Json>, b: Option<Json>, kept: Option<Json>, patch: Json, path: seq<string>)
    requires PatchedPlace(a, kept, patch, path) && PatchedPlace(b, kept, patch, path)
    ensures SamePlace(a, b)
  {
  }

  /** Every place of the result is as the patch says, or as the target had it. */
  ghost predicate FollowsPatch(result: Json, target: Json, patch: Json) {
    forall path :: PatchedPlace(At(result, path), At(target, path), patch, path)
  }

  /** The places say it all: the merge is the one document whose every place is as patch and target say. */
  lemma {:induction false} MergeIffByPath(result: Json, target: Json, patch: Json)
    ensures result == Merge(target, patch) <==> FollowsPatch(result, target, patch)
  {
    forall path ensures PatchedPlace(At(Merge(target, patch), path), At(target, path), patch, path) {
      MergeByPath(target, patch, path);
    }
    assert FollowsPatch(Merge(target, patch), target, patch);
    if FollowsPatch(result, target, patch) {
      forall path ensures SamePlace(At(result, path), At(Merge(target, patch), path)) {
        PlaceIsDetermined(At(result, path), At(Merge(target, patch), path), At(target, path), patch, path);
      }
      EqualByPath(result, Merge(target, patch));
    }
  }
}

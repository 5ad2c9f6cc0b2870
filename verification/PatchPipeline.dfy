/**
 What patch_application does to the JSON form of a manifest: strip two annotations, merge the
 incoming patch, put one annotation back.
 */
module PatchPipeline {
  import opened Wrappers
  import opened MergePatch

  const LAST_APPLIED := "kubectl.kubernetes.io/last-applied-configuration"
  const VERSION := "version"
  const METADATA := "metadata"
  const ANNOTATIONS := "annotations"

  /** A member of an object; None on a missing member and on every other kind of value. */
  function Get(j: Json, key: string): Option<Json> {
    if j.Object? && key in j.members then Some(j.members[key]) else None
  }

  /** Get on an optional value. */
  function Then(j: Option<Json>, key: string): Option<Json> {
    match j
    case None => None
    case Some(value) => Get(value, key)
  }

  /** The document has an object at /metadata/annotations. */
  predicate HasAnnotations(doc: Json) {
    var found := Then(Get(doc, METADATA), ANNOTATIONS);
    found.Some? && found.value.Object?
  }

  /** The annotation of that name, if the document has an annotations object holding it. */
  function Annotation(doc: Json, key: string): Option<Json> {
    Then(Then(Get(doc, METADATA), ANNOTATIONS), key)
  }

  /** The same document with other annotations. */
  function WithAnnotations(doc: Json, annotations: map<string, Json>): Json
    requires HasAnnotations(doc)
  {
    Object(doc.members[METADATA :=
      Object(doc.members[METADATA].members[ANNOTATIONS := Object(annotations)])])
  }

  function AnnotationMap(doc: Json): map<string, Json>
    requires HasAnnotations(doc)
  {
    doc.members[METADATA].members[ANNOTATIONS].members
  }

  function RemoveAnnotation(doc: Json, key: string): Json {
    if HasAnnotations(doc) then WithAnnotations(doc, AnnotationMap(doc) - {key}) else doc
  }

  function InsertAnnotation(doc: Json, key: string, value: Json): Json {
    if HasAnnotations(doc) then WithAnnotations(doc, AnnotationMap(doc)[key := value]) else doc
  }

  /** The document without the two annotations the pipeline treats specially. */
  function Strip(doc: Json): Json {
    RemoveAnnotation(RemoveAnnotation(doc, LAST_APPLIED), VERSION)
  }

  function Reinsert(doc: Json, last: Option<Json>): Json {
    match last
    case None => doc
    case Some(value) => InsertAnnotation(doc, LAST_APPLIED, value)
  }

  /** The manifest that patch_application deploys, as a function of the current one and the patch. */
  function Patched(current: Json, patch: Json): Json {
    Reinsert(Merge(Strip(current), patch), Annotation(current, LAST_APPLIED))
  }

  /** The edits of patch_application, in its order. */
  method PatchApplication(fetched: Json, patch: Json) returns (current: Json)
    ensures current == Patched(fetched, patch)
  {
    current := fetched;
    var last := None;
    if HasAnnotations(current) {
      last := Get(Object(AnnotationMap(current)), LAST_APPLIED);
      current := RemoveAnnotation(current, LAST_APPLIED);
    }
    if HasAnnotations(current) {
      current := RemoveAnnotation(current, VERSION);
    }
    current := MergeInPlace(current, patch);
    if last.Some? {
      current := InsertAnnotation(current, LAST_APPLIED, last.value);
    }
  }

  // ---------------------------------------------------------------- stripping and merging

  const SPECIAL: set<string> := {LAST_APPLIED, VERSION}

  /** Stripping touches the two special annotations and nothing else. */
  lemma StripShape(doc: Json)
    ensures !HasAnnotations(doc) ==> Strip(doc) == doc
    ensures HasAnnotations(doc) ==>
              HasAnnotations(Strip(doc)) && Strip(doc) == WithAnnotations(doc, AnnotationMap(doc) - SPECIAL)
  {
    if HasAnnotations(doc) {
      var once := RemoveAnnotation(doc, LAST_APPLIED);
      assert AnnotationMap(once) - {VERSION} == AnnotationMap(doc) - SPECIAL;
      assert Strip(doc).members[METADATA].members
          == WithAnnotations(doc, AnnotationMap(doc) - SPECIAL).members[METADATA].members;
      assert Strip(doc).members == WithAnnotations(doc, AnnotationMap(doc) - SPECIAL).members;
    }
  }

  /** Two documents that differ in nothing but their special annotations. */
  predicate AgreeOutsideSpecial(a: Json, b: Json) {
    && HasAnnotations(a) && HasAnnotations(b)
    && a.members - {METADATA} == b.members - {METADATA}
    && a.members[METADATA].members - {ANNOTATIONS} == b.members[METADATA].members - {ANNOTATIONS}
    && AnnotationMap(a) - SPECIAL == AnnotationMap(b) - SPECIAL
  }

  function MemberOrNone(members: map<string, Json>, key: string): Option<Json> {
    if key in members then Some(members[key]) else None
  }

  /** Maps that agree outside one key and at that key are equal. */
  lemma EqualOutsideAndAt(a: map<string, Json>, b: map<string, Json>, key: string)
    requires MemberOrNone(a, key) == MemberOrNone(b, key)
    requires a - {key} == b - {key}
    ensures a == b
  {
    forall other | other in a || other in b
      ensures other in a && other in b && a[other] == b[other]
    {
      assert other != key ==> (other in a <==> other in a - {key}) && (other in b <==> other in b - {key});
    }
  }

  lemma EqualOutsideAndIn(a: map<string, Json>, b: map<string, Json>, keys: set<string>)
    requires a - keys == b - keys
    requires forall key | key in keys :: MemberOrNone(a, key) == MemberOrNone(b, key)
    ensures a == b
  {
    forall key ensures MemberOrNone(a, key) == MemberOrNone(b, key) {
      if key !in keys {
        assert MemberOrNone(a, key) == MemberOrNone(a - keys, key);
        assert MemberOrNone(b, key) == MemberOrNone(b - keys, key);
      }
    }
    assert forall key | key in a || key in b :: MemberOrNone(a, key) == MemberOrNone(b, key);
  }

  lemma AgreementIsStripEquality(a: Json, b: Json)
    requires AgreeOutsideSpecial(a, b)
    ensures Strip(a) == Strip(b)
  {
    StripShape(a);
    StripShape(b);
    var x, y := Strip(a), Strip(b);
    assert x.members[METADATA].members - {ANNOTATIONS} == a.members[METADATA].members - {ANNOTATIONS};
    assert y.members[METADATA].members - {ANNOTATIONS} == b.members[METADATA].members - {ANNOTATIONS};
    EqualOutsideAndAt(x.members[METADATA].members, y.members[METADATA].members, ANNOTATIONS);
    assert x.members - {METADATA} == a.members - {METADATA};
    assert y.members - {METADATA} == b.members - {METADATA};
    EqualOutsideAndAt(x.members, y.members, METADATA);
  }

  /** The patch leaves the annotations object of its target where it is. */
  predicate KeepsAnnotations(patch: Json) {
    && patch.Object?
    && (METADATA in patch.members ==>
          && patch.members[METADATA].Object?
          && (ANNOTATIONS in patch.members[METADATA].members ==>
                patch.members[METADATA].members[ANNOTATIONS].Object?))
  }

  /** What a patch member does to the value found under it. */
  function MergeMember(value: Json, patch: Json, key: string): Json
    requires patch.Object?
  {
    if key in patch.members then Merge(value, patch.members[key]) else value
  }

  /**
   A merge acts on each member separately: a member the patch names is there afterwards unless the
   patch has null for it, any other member is there if it was before.
   */
  lemma MergeAtMember(target: Json, patch: Json, key: string)
    requires patch.Object?
    ensures key in Merge(target, patch).members
       <==> if key in patch.members then patch.members[key] != Null else key in BaseMembers(target)
    ensures MemberOrNull(Merge(target, patch).members, key)
         == MergeMember(MemberOrNull(BaseMembers(target), key), patch, key)
  {
  }

  /** Merging into the annotations, seen from the root of the document. */
  lemma MergeIntoAnnotations(doc: Json, patch: Json)
    requires HasAnnotations(doc) && KeepsAnnotations(patch)
    ensures HasAnnotations(Merge(doc, patch))
    ensures AnnotationMap(Merge(doc, patch))
         == if HasAnnotations(patch)
            then Merge(Object(AnnotationMap(doc)), Object(AnnotationMap(patch))).members
            else AnnotationMap(doc)
  {
    MergeAtMember(doc, patch, METADATA);
    if METADATA in patch.members {
      MergeAtMember(doc.members[METADATA], patch.members[METADATA], ANNOTATIONS);
    }
  }

  /** If the merge has annotations then the patch kept them. */
  lemma AnnotationsNeedKeeping(doc: Json, patch: Json)
    requires HasAnnotations(Merge(doc, patch))
    ensures KeepsAnnotations(patch)
  {
    MergeAtMember(doc, patch, METADATA);
    if METADATA in patch.members {
      MergeAtMember(MemberOrNull(BaseMembers(doc), METADATA), patch.members[METADATA], ANNOTATIONS);
    }
  }

  /** Members outside a set of keys do not feel what the target holds at those keys. */
  lemma {:induction false} MergeOutside(a: Json, b: Json, patch: Json, keys: set<string>)
    requires a.Object? && b.Object? && patch.Object?
    requires a.members - keys == b.members - keys
    ensures Merge(a, patch).members - keys == Merge(b, patch).members - keys
  {
    var x, y := Merge(a, patch).members, Merge(b, patch).members;
    forall key | key !in keys
      ensures key in x <==> key in y
      ensures key in x ==> x[key] == y[key]
    {
      assert key in a.members <==> key in a.members - keys;
      assert key in b.members <==> key in b.members - keys;
    }
  }

  lemma StripAgrees(doc: Json)
    requires HasAnnotations(doc)
    ensures AgreeOutsideSpecial(doc, Strip(doc))
  {
    StripShape(doc);
    var stripped := Strip(doc);
    assert stripped.members - {METADATA} == doc.members - {METADATA};
    assert stripped.members[METADATA].members - {ANNOTATIONS} == doc.members[METADATA].members - {ANNOTATIONS};
  }

  /** A patch that keeps the annotations keeps agreement outside the special ones. */
  lemma MergeKeepsAgreement(a: Json, b: Json, patch: Json)
    requires AgreeOutsideSpecial(a, b) && KeepsAnnotations(patch)
    ensures AgreeOutsideSpecial(Merge(a, patch), Merge(b, patch))
  {
    MergeIntoAnnotations(a, patch);
    MergeIntoAnnotations(b, patch);
    MergeOutside(a, b, patch, {METADATA});
    MergeAtMember(a, patch, METADATA);
    MergeAtMember(b, patch, METADATA);
    if METADATA in patch.members {
      MergeOutside(a.members[METADATA], b.members[METADATA], patch.members[METADATA], {ANNOTATIONS});
    }
    if HasAnnotations(patch) {
      MergeOutside(Object(AnnotationMap(a)), Object(AnnotationMap(b)), Object(AnnotationMap(patch)), SPECIAL);
    }
  }

  /** A patch that replaces or removes the annotations makes the two targets equal. */
  lemma MergeForgetsAnnotations(a: Json, b: Json, patch: Json)
    requires AgreeOutsideSpecial(a, b) && !KeepsAnnotations(patch)
    ensures Merge(a, patch) == Merge(b, patch)
  {
    if patch.Object? {
      var x, y := Merge(a, patch), Merge(b, patch);
      MergeOutside(a, b, patch, {METADATA});
      if patch.members[METADATA].Object? {
        var inner := patch.members[METADATA];
        var x', y' := Merge(a.members[METADATA], inner), Merge(b.members[METADATA], inner);
        MergeOutside(a.members[METADATA], b.members[METADATA], inner, {ANNOTATIONS});
        EqualOutsideAndAt(x'.members, y'.members, ANNOTATIONS);
      }
      EqualOutsideAndAt(x.members, y.members, METADATA);
    }
  }

  /** The commutation law: stripping before the merge does not show once it is stripped again. */
  lemma StripBeforeMerge(doc: Json, patch: Json)
    ensures Strip(Merge(Strip(doc), patch)) == Strip(Merge(doc, patch))
  {
    if !HasAnnotations(doc) {
      StripShape(doc);
    } else {
      StripAgrees(doc);
      if KeepsAnnotations(patch) {
        MergeKeepsAgreement(doc, Strip(doc), patch);
        AgreementIsStripEquality(Merge(doc, patch), Merge(Strip(doc), patch));
      } else {
        MergeForgetsAnnotations(doc, Strip(doc), patch);
      }
    }
  }

  lemma ReinsertIsStripped(doc: Json, last: Option<Json>)
    ensures Strip(Reinsert(doc, last)) == Strip(doc)
  {
    if last.Some? && HasAnnotations(doc) {
      var result := Reinsert(doc, last);
      assert AnnotationMap(result) - SPECIAL == AnnotationMap(doc) - SPECIAL;
      assert result.members - {METADATA} == doc.members - {METADATA};
      assert result.members[METADATA].members - {ANNOTATIONS} == doc.members[METADATA].members - {ANNOTATIONS};
      AgreementIsStripEquality(result, doc);
    }
  }

  /** Up to the two special annotations, patch_application is the merge of RFC 7396. */
  lemma {:induction false} PipelineIsMergePatch(current: Json, patch: Json)
    ensures Strip(Patched(current, patch)) == Strip(Merge(current, patch))
  {
    ReinsertIsStripped(Merge(Strip(current), patch), Annotation(current, LAST_APPLIED));
    StripBeforeMerge(current, patch);
  }

  // ---------------------------------------------------------------- idempotence

  /** A special annotation of the merge of a stripped target comes from the patch alone. */
  lemma SpecialFromPatch(doc: Json, patch: Json, key: string)
    requires key in SPECIAL
    requires HasAnnotations(Merge(Strip(doc), patch))
    ensures Annotation(Merge(Strip(doc), patch), key) == FromPatch(patch, key)
  {
    StripShape(doc);
    var stripped := Strip(doc);
    var merged := Merge(stripped, patch);
    MergeAtMember(stripped, patch, METADATA);
    var inner := MemberOrNull(BaseMembers(stripped), METADATA);
    if METADATA in patch.members && patch.members[METADATA].Object? {
      MergeAtMember(inner, patch.members[METADATA], ANNOTATIONS);
      if ANNOTATIONS in patch.members[METADATA].members {
        var deepest := MemberOrNull(BaseMembers(inner), ANNOTATIONS);
        MergeAtMember(deepest, patch.members[METADATA].members[ANNOTATIONS], key);
      }
    }
  }

  /** What the patch alone makes of an annotation: nothing when it is missing or null. */
  function FromPatch(patch: Json, key: string): Option<Json> {
    match Annotation(patch, key)
    case None => None
    case Some(value) => if value == Null then None else Some(Merge(Null, value))
  }

  /** The stripped document and the special annotations together determine a document. */
  lemma DeterminedByStripAndSpecial(a: Json, b: Json)
    requires HasAnnotations(a) && HasAnnotations(b)
    requires Strip(a) == Strip(b)
    requires forall key | key in SPECIAL :: Annotation(a, key) == Annotation(b, key)
    ensures a == b
  {
    StripShape(a);
    StripShape(b);
    StripAgrees(a);
    StripAgrees(b);
    forall key | key in SPECIAL ensures MemberOrNone(AnnotationMap(a), key) == MemberOrNone(AnnotationMap(b), key) {
      assert Annotation(a, key) == Annotation(b, key);
    }
    EqualOutsideAndIn(AnnotationMap(a), AnnotationMap(b), SPECIAL);
    EqualOutsideAndAt(a.members[METADATA].members, b.members[METADATA].members, ANNOTATIONS);
    EqualOutsideAndAt(a.members, b.members, METADATA);
  }

  /** A merged document that is stripped and merged again is itself. */
  lemma MergeAfterStripRestores(doc: Json, patch: Json)
    ensures var once := Merge(Strip(doc), patch); Merge(Strip(once), patch) == once
  {
    var once := Merge(Strip(doc), patch);
    var again := Merge(Strip(once), patch);
    MergeIdempotent(Strip(doc), patch);
    if !HasAnnotations(once) {
      StripShape(once);
    } else {
      AnnotationsNeedKeeping(Strip(doc), patch);
      StripBeforeMerge(once, patch);
      StripShape(once);
      MergeIntoAnnotations(Strip(once), patch);
      forall key | key in SPECIAL
        ensures Annotation(once, key) == Annotation(again, key)
      {
        SpecialFromPatch(doc, patch, key);
        SpecialFromPatch(once, patch, key);
      }
      DeterminedByStripAndSpecial(once, again);
    }
  }

  lemma AnnotationAfterReinsert(doc: Json, last: Option<Json>, key: string)
    requires HasAnnotations(doc)
    ensures HasAnnotations(Reinsert(doc, last))
    ensures Annotation(Reinsert(doc, last), key)
         == if key == LAST_APPLIED && last.Some? then last else Annotation(doc, key)
  {
  }

  lemma ReinsertSame(doc: Json)
    ensures Reinsert(doc, Annotation(doc, LAST_APPLIED)) == doc
  {
    if HasAnnotations(doc) && LAST_APPLIED in AnnotationMap(doc) {
      assert AnnotationMap(doc)[LAST_APPLIED := AnnotationMap(doc)[LAST_APPLIED]] == AnnotationMap(doc);
      var metadata := doc.members[METADATA].members;
      assert metadata[ANNOTATIONS := metadata[ANNOTATIONS]] == metadata;
      assert doc.members[METADATA := doc.members[METADATA]] == doc.members;
    }
  }

  lemma ReinsertTwice(doc: Json, last: Option<Json>)
    ensures Reinsert(doc, Annotation(Reinsert(doc, last), LAST_APPLIED)) == Reinsert(doc, last)
  {
    if last.None? || !HasAnnotations(doc) {
      ReinsertSame(doc);
    } else {
      AnnotationAfterReinsert(doc, last, LAST_APPLIED);
    }
  }

  /** Sending the same patch twice gives what sending it once gives. */
  lemma PipelineIdempotent(current: Json, patch: Json)
    ensures Patched(Patched(current, patch), patch) == Patched(current, patch)
  {
    var last := Annotation(current, LAST_APPLIED);
    var merged := Merge(Strip(current), patch);
    ReinsertIsStripped(merged, last);
    MergeAfterStripRestores(current, patch);
    ReinsertTwice(merged, last);
  }

  // ---------------------------------------------------------------- the two special annotations

  /**
   The version of the result is the one the patch sets and never the fetched one; the last-applied
   configuration is the fetched one if there was one, whatever the patch says, and otherwise
   follows the patch alone.
   */
  lemma SpecialAnnotations(current: Json, patch: Json)
    requires HasAnnotations(Patched(current, patch))
    ensures Annotation(Patched(current, patch), VERSION) == FromPatch(patch, VERSION)
    ensures var before := Annotation(current, LAST_APPLIED);
            Annotation(Patched(current, patch), LAST_APPLIED)
            == if before.Some? then before else FromPatch(patch, LAST_APPLIED)
  {
    var last := Annotation(current, LAST_APPLIED);
    var merged := Merge(Strip(current), patch);
    SpecialFromPatch(current, patch, VERSION);
    SpecialFromPatch(current, patch, LAST_APPLIED);
    AnnotationAfterReinsert(merged, last, VERSION);
    AnnotationAfterReinsert(merged, last, LAST_APPLIED);
  }

  /** The deployed manifest has annotations exactly when the plain merge of the two has them. */
  lemma {:induction false} AnnotationsSurvive(current: Json, patch: Json)
    ensures HasAnnotations(Patched(current, patch)) <==> HasAnnotations(Merge(current, patch))
  {
    StripShape(current);
    var merged := Merge(Strip(current), patch);
    var last := Annotation(current, LAST_APPLIED);
    assert HasAnnotations(Reinsert(merged, last)) <==> HasAnnotations(merged);
    if HasAnnotations(current) {
      if KeepsAnnotations(patch) {
        MergeIntoAnnotations(current, patch);
        MergeIntoAnnotations(Strip(current), patch);
      } else {
        StripAgrees(current);
        MergeForgetsAnnotations(current, Strip(current), patch);
      }
    }
  }

  lemma StripKeepsNullFree(doc: Json)
    requires NullFree(doc)
    ensures NullFree(Strip(doc))
  {
    StripShape(doc);
    if HasAnnotations(doc) {
      assert NullFree(doc.members[METADATA]);
      assert NullFree(doc.members[METADATA].members[ANNOTATIONS]);
      AnnotationsNullFree(doc, AnnotationMap(doc) - SPECIAL);
    }
  }

  lemma AnnotationsNullFree(doc: Json, annotations: map<string, Json>)
    requires HasAnnotations(doc) && NullFree(doc) && NullFree(Object(annotations))
    ensures NullFree(WithAnnotations(doc, annotations))
  {
    var metadata := doc.members[METADATA];
    assert NullFree(metadata);
    assert NullFree(Object(metadata.members[ANNOTATIONS := Object(annotations)]));
  }

  /** Null members never enter a manifest through an object patch. */
  lemma PipelineKeepsNullFree(current: Json, patch: Json)
    requires patch.Object? && NullFree(current)
    ensures NullFree(Patched(current, patch))
  {
    var merged := Merge(Strip(current), patch);
    var last := Annotation(current, LAST_APPLIED);
    StripKeepsNullFree(current);
    MergeKeepsNullFree(Strip(current), patch);
    if last.Some? && HasAnnotations(merged) {
      assert NullFree(current.members[METADATA]);
      assert NullFree(current.members[METADATA].members[ANNOTATIONS]);
      assert NullFree(merged.members[METADATA]);
      assert NullFree(merged.members[METADATA].members[ANNOTATIONS]);
      AnnotationsNullFree(merged, AnnotationMap(merged)[LAST_APPLIED := last.value]);
    }
  }

  // ---------------------------------------------------------------- the result, path by path

  const VERSION_PATH: seq<string> := ["metadata", "annotations", "version"]
  const LAST_APPLIED_PATH: seq<string> :=
    ["metadata", "annotations", "kubectl.kubernetes.io/last-applied-configuration"]

  predicate Within(path: seq<string>, top: seq<string>) {
    top <= path
  }

  /** What the fetched manifest contributes to a place: nothing at or below the two special annotations. */
  function Kept(current: Json, path: seq<string>): Option<Json> {
    if Within(path, VERSION_PATH) || Within(path, LAST_APPLIED_PATH) then None else At(current, path)
  }

  /**
   A place of the deployed manifest: at or below a last-applied annotation that was fetched it is the
   fetched one, as long as there are annotations; everywhere else it is as the patch says.
   */
  ghost predicate PipelinePlace(result: Json, current: Json, patch: Json, path: seq<string>) {
    if Within(path, LAST_APPLIED_PATH) && At(current, LAST_APPLIED_PATH).Some?
       && IsObject(At(result, ["metadata", "annotations"]))
    then At(result, path) == At(current, path)
    else PatchedPlace(At(result, path), Kept(current, path), patch, path)
  }

  lemma {:induction false} AtMember(doc: Json, key: string, rest: seq<string>)
    ensures At(doc, [key] + rest) == if doc.Object? && key in doc.members then At(doc.members[key], rest) else None
  {
    assert ([key] + rest)[0] == key && ([key] + rest)[1..] == rest;
  }

  /** A path from the root through the annotations. */
  lemma {:induction false} AtAnnotation(doc: Json, rest: seq<string>)
    ensures At(doc, [METADATA, ANNOTATIONS] + rest)
         == match Then(Get(doc, METADATA), ANNOTATIONS) case None => None case Some(value) => At(value, rest)
  {
    assert [METADATA, ANNOTATIONS] + rest == [METADATA] + ([ANNOTATIONS] + rest);
    AtMember(doc, METADATA, [ANNOTATIONS] + rest);
    if doc.Object? && METADATA in doc.members {
      AtMember(doc.members[METADATA], ANNOTATIONS, rest);
    }
  }

  /** A path that leads through the annotations to a member of them, or does not. */
  lemma PathSplit(path: seq<string>) returns (key: string, rest: seq<string>)
    ensures |path| >= 3 && path[0] == METADATA && path[1] == ANNOTATIONS
            ==> path == [METADATA, ANNOTATIONS] + ([key] + rest)
    ensures Within(path, VERSION_PATH) ==> path == [METADATA, ANNOTATIONS] + ([key] + rest) && key == VERSION
    ensures Within(path, LAST_APPLIED_PATH) ==> path == [METADATA, ANNOTATIONS] + ([key] + rest) && key == LAST_APPLIED
    ensures path == [METADATA, ANNOTATIONS] + ([key] + rest) && key == VERSION ==> Within(path, VERSION_PATH)
    ensures path == [METADATA, ANNOTATIONS] + ([key] + rest) && key == LAST_APPLIED ==> Within(path, LAST_APPLIED_PATH)
  {
    key, rest := "", [];
    if |path| >= 3 {
      key, rest := path[2], path[3..];
      if path[0] == METADATA && path[1] == ANNOTATIONS {
        assert path == [METADATA, ANNOTATIONS] + ([key] + rest);
        assert path[..3] == [METADATA, ANNOTATIONS, key];
      }
    }
  }

  /** Replacing the annotations shows only at their members. */
  lemma {:induction false} WithAnnotationsByPath(doc: Json, annotations: map<string, Json>, path: seq<string>)
    requires HasAnnotations(doc)
    requires !(|path| >= 3 && path[0] == METADATA && path[1] == ANNOTATIONS)
    ensures SamePlace(At(WithAnnotations(doc, annotations), path), At(doc, path))
  {
    var other := WithAnnotations(doc, annotations);
    if path != [] {
      assert path == [path[0]] + path[1..];
      AtMember(doc, path[0], path[1..]);
      AtMember(other, path[0], path[1..]);
      if path[0] == METADATA && |path| > 1 {
        assert path[1..] == [path[1]] + path[2..];
        AtMember(doc.members[METADATA], path[1], path[2..]);
        AtMember(other.members[METADATA], path[1], path[2..]);
      }
    }
  }

  lemma {:induction false} StripByPath(doc: Json, path: seq<string>)
    ensures SamePlace(At(Strip(doc), path), Kept(doc, path))
  {
    StripShape(doc);
    var key, rest := PathSplit(path);
    if |path| >= 3 && path[0] == METADATA && path[1] == ANNOTATIONS {
      AtAnnotation(doc, [key] + rest);
      AtAnnotation(Strip(doc), [key] + rest);
      if HasAnnotations(doc) {
        AtMember(Object(AnnotationMap(doc)), key, rest);
        AtMember(Object(AnnotationMap(Strip(doc))), key, rest);
      } else if Then(Get(doc, METADATA), ANNOTATIONS).Some? {
        AtMember(Then(Get(doc, METADATA), ANNOTATIONS).value, key, rest);
      }
    } else if HasAnnotations(doc) {
      WithAnnotationsByPath(doc, AnnotationMap(doc) - SPECIAL, path);
    }
  }

  lemma {:induction false} ReinsertByPath(doc: Json, value: Json, path: seq<string>)
    requires HasAnnotations(doc)
    ensures var result := Reinsert(doc, Some(value));
            if Within(path, LAST_APPLIED_PATH) then At(result, path) == At(value, path[3..])
            else SamePlace(At(result, path), At(doc, path))
  {
    var result := Reinsert(doc, Some(value));
    var key, rest := PathSplit(path);
    if |path| >= 3 && path[0] == METADATA && path[1] == ANNOTATIONS {
      assert path[3..] == rest;
      AtAnnotation(doc, [key] + rest);
      AtAnnotation(result, [key] + rest);
      AtMember(Object(AnnotationMap(doc)), key, rest);
      AtMember(Object(AnnotationMap(result)), key, rest);
    } else {
      WithAnnotationsByPath(doc, AnnotationMap(doc)[LAST_APPLIED := value], path);
    }
  }

  lemma {:induction false} AnnotationByPath(doc: Json)
    ensures Annotation(doc, LAST_APPLIED) == At(doc, LAST_APPLIED_PATH)
    ensures HasAnnotations(doc) <==> IsObject(At(doc, ["metadata", "annotations"]))
    ensures forall path | Within(path, LAST_APPLIED_PATH) && Annotation(doc, LAST_APPLIED).Some? ::
              At(doc, path) == At(Annotation(doc, LAST_APPLIED).value, path[3..])
  {
    AtAnnotation(doc, []);
    assert [METADATA, ANNOTATIONS] + [] == ["metadata", "annotations"];
    forall path | Within(path, LAST_APPLIED_PATH)
      ensures Annotation(doc, LAST_APPLIED).Some? ==>
                At(doc, path) == At(Annotation(doc, LAST_APPLIED).value, path[3..])
      ensures Annotation(doc, LAST_APPLIED).None? ==> At(doc, path) == None
    {
      var key, rest := PathSplit(path);
      assert path[3..] == rest;
      AtAnnotation(doc, [key] + rest);
      if Then(Get(doc, METADATA), ANNOTATIONS).Some? {
        AtMember(Then(Get(doc, METADATA), ANNOTATIONS).value, key, rest);
      }
    }
    assert Within(LAST_APPLIED_PATH, LAST_APPLIED_PATH) && LAST_APPLIED_PATH[3..] == [];
  }

  lemma KeptAlike(result: Option<Json>, a: Option<Json>, b: Option<Json>, patch: Json, path: seq<string>)
    requires PatchedPlace(result, a, patch, path) && SamePlace(a, b)
    ensures PatchedPlace(result, b, patch, path)
  {
  }

  lemma ResultAlike(a: Option<Json>, b: Option<Json>, kept: Option<Json>, patch: Json, path: seq<string>)
    requires PatchedPlace(a, kept, patch, path) && SamePlace(b, a)
    ensures PatchedPlace(b, kept, patch, path)
  {
  }

  /** Every place of the deployed manifest, in terms of the fetched one and the patch. */
  lemma {:induction false} PipelineByPath(current: Json, patch: Json, path: seq<string>)
    ensures PipelinePlace(Patched(current, patch), current, patch, path)
  {
    var merged, last := Merge(Strip(current), patch), Annotation(current, LAST_APPLIED);
    var result := Patched(current, patch);
    StripByPath(current, path);
    MergeByPath(Strip(current), patch, path);
    KeptAlike(At(merged, path), At(Strip(current), path), Kept(current, path), patch, path);
    AnnotationByPath(current);
    AnnotationByPath(result);
    AnnotationByPath(merged);
    if last.Some? && HasAnnotations(merged) {
      AnnotationAfterReinsert(merged, last, LAST_APPLIED);
      ReinsertByPath(merged, last.value, path);
      if !Within(path, LAST_APPLIED_PATH) {
        ResultAlike(At(merged, path), At(result, path), Kept(current, path), patch, path);
      }
    }
  }

  ghost predicate FollowsPipeline(result: Json, current: Json, patch: Json) {
    forall path :: PipelinePlace(result, current, patch, path)
  }

  /** The deployed manifest is the one document whose every place is as patch and fetched manifest say. */
  lemma {:induction false} PipelineIffByPath(result: Json, current: Json, patch: Json)
    ensures result == Patched(current, patch) <==> FollowsPipeline(result, current, patch)
  {
    var patched := Patched(current, patch);
    forall path ensures PipelinePlace(patched, current, patch, path) {
      PipelineByPath(current, patch, path);
    }
    assert FollowsPipeline(patched, current, patch);
    if FollowsPipeline(result, current, patch) {
      var top := ["metadata", "annotations"];
      assert PipelinePlace(result, current, patch, top) && PipelinePlace(patched, current, patch, top);
      assert !Within(top, LAST_APPLIED_PATH) && !Within(top, VERSION_PATH);
      PlaceIsDetermined(At(result, top), At(patched, top), Kept(current, top), patch, top);
      forall path ensures SamePlace(At(result, path), At(patched, path)) {
        PlacesAgree(result, patched, current, patch, path);
      }
      EqualByPath(result, patched);
    }
  }

  lemma PlacesAgree(a: Json, b: Json, current: Json, patch: Json, path: seq<string>)
    requires PipelinePlace(a, current, patch, path) && PipelinePlace(b, current, patch, path)
    requires IsObject(At(a, ["metadata", "annotations"])) <==> IsObject(At(b, ["metadata", "annotations"]))
    ensures SamePlace(At(a, path), At(b, path))
  {
    if !(Within(path, LAST_APPLIED_PATH) && At(current, LAST_APPLIED_PATH).Some?
         && IsObject(At(a, ["metadata", "annotations"])))
    {
      PlaceIsDetermined(At(a, path), At(b, path), Kept(current, path), patch, path);
    }
  }
}

/**
 * The user-data provider (src/providers/userDataProvider.ts): reads the
 * cached profile, lists the fields still missing and builds the guidance
 * text handed to the conversation model.
 */
module UserDataProvider {
  import opened Wrappers
  import opened UserDataTypes

  /** `getCacheKey`: the cache key of a user's profile under a character. */
  function GetCacheKey(characterName: string, userId: string): string
  {
    characterName + "/" + userId + "/data"
  }

  /** `isDataComplete`: all three tracked fields are truthy. */
  function IsDataComplete(d: UserData): bool
  {
    Known(d.name) && Known(d.location) && Known(d.occupation)
  }

  /** Complete means every tracked field, in the declared order, is truthy. */
  lemma CompleteIffAllKnown(d: UserData)
    ensures IsDataComplete(d) <==> forall f :: f in FieldOrder ==> Known(FieldValue(d, f))
  {
    if !IsDataComplete(d) {
      var f := if !Known(d.name) then "name" else if !Known(d.location) then "location" else "occupation";
      assert f in FieldOrder && !Known(FieldValue(d, f));
    }
  }

  /** The fields of `fields` whose value in `d` is not truthy, in the order given. */
  function UnknownAmong(d: UserData, fields: seq<string>): seq<string>
  {
    if fields == [] then []
    else (if Known(FieldValue(d, fields[0])) then [] else [fields[0]]) + UnknownAmong(d, fields[1..])
  }

  /** The missing-field list `getMissingFields` builds. */
  function MissingFields(d: UserData): seq<string>
  {
    UnknownAmong(d, FieldOrder)
  }

  /** The missing list, field by field. */
  lemma MissingFieldsUnfold(d: UserData)
    ensures MissingFields(d) ==
      (if Known(d.name) then [] else ["name"]) +
      (if Known(d.location) then [] else ["location"]) +
      (if Known(d.occupation) then [] else ["occupation"])
  {
    var s0, s1, s2: seq<string> := ["name", "location", "occupation"], ["location", "occupation"], ["occupation"];
    assert s0[1..] == s1 && s1[1..] == s2 && s2[1..] == [];
    assert UnknownAmong(d, s2) == (if Known(d.occupation) then [] else ["occupation"]);
    assert UnknownAmong(d, s1) == (if Known(d.location) then [] else ["location"]) + UnknownAmong(d, s2);
    assert UnknownAmong(d, s0) == (if Known(d.name) then [] else ["name"]) + UnknownAmong(d, s1);
  }

  /** `getMissingFields`: push each untruthy field's name, in declaration order. */
  method GetMissingFields(d: UserData) returns (missing: seq<string>)
    ensures missing == MissingFields(d)
    ensures forall f :: f in missing <==> f in FieldOrder && !Known(FieldValue(d, f))
    ensures forall i, j :: 0 <= i < j < |missing| ==> Rank(missing[i]) < Rank(missing[j])
    ensures |missing| <= |FieldOrder|
    ensures missing == [] <==> IsDataComplete(d)
  {
    missing := [];
    if !Known(d.name) {
      missing := missing + ["name"];
    }
    if !Known(d.location) {
      missing := missing + ["location"];
    }
    if !Known(d.occupation) {
      missing := missing + ["occupation"];
    }
    MissingFieldsUnfold(d);
    MissingFieldsExact(d);
    MissingFieldsOrdered(d);
    MissingEmptyIffComplete(d);
  }

  lemma {:induction false} UnknownAmongMembers(d: UserData, fields: seq<string>)
    ensures forall f :: f in UnknownAmong(d, fields) <==> f in fields && !Known(FieldValue(d, f))
  {
    if fields != [] {
      UnknownAmongMembers(d, fields[1..]);
      assert fields == [fields[0]] + fields[1..];
    }
  }

  lemma {:induction false} UnknownAmongLength(d: UserData, fields: seq<string>)
    ensures |UnknownAmong(d, fields)| <= |fields|
  {
    if fields != [] {
      UnknownAmongLength(d, fields[1..]);
    }
  }

  /** Filtering keeps the relative order of the fields it keeps. */
  lemma {:induction false} UnknownAmongOrdered(d: UserData, fields: seq<string>)
    requires forall i, j :: 0 <= i < j < |fields| ==> Rank(fields[i]) < Rank(fields[j])
    ensures forall i, j :: 0 <= i < j < |UnknownAmong(d, fields)| ==>
      Rank(UnknownAmong(d, fields)[i]) < Rank(UnknownAmong(d, fields)[j])
  {
    if fields != [] {
      var rest := UnknownAmong(d, fields[1..]);
      UnknownAmongOrdered(d, fields[1..]);
      UnknownAmongMembers(d, fields[1..]);
      forall f | f in rest ensures Rank(fields[0]) < Rank(f) {
        var k :| 1 <= k < |fields| && fields[k] == f;
      }
    }
  }

  /** The missing list names exactly the untruthy fields, never more than three. */
  lemma MissingFieldsExact(d: UserData)
    ensures forall f :: f in MissingFields(d) <==> f in FieldOrder && !Known(FieldValue(d, f))
    ensures |MissingFields(d)| <= |FieldOrder|
  {
    UnknownAmongMembers(d, FieldOrder);
    UnknownAmongLength(d, FieldOrder);
  }

  /** The missing list follows name, location, occupation and has no duplicates. */
  lemma MissingFieldsOrdered(d: UserData)
    ensures forall i, j :: 0 <= i < j < |MissingFields(d)| ==>
      Rank(MissingFields(d)[i]) < Rank(MissingFields(d)[j])
    ensures forall i, j :: 0 <= i < j < |MissingFields(d)| ==> MissingFields(d)[i] != MissingFields(d)[j]
  {
    UnknownAmongOrdered(d, FieldOrder);
  }

  /** No field is missing exactly when the profile is complete. */
  lemma MissingEmptyIffComplete(d: UserData)
    ensures MissingFields(d) == [] <==> IsDataComplete(d)
  {
    MissingFieldsExact(d);
    CompleteIffAllKnown(d);
    if MissingFields(d) != [] {
      assert MissingFields(d)[0] in MissingFields(d);
    }
  }

  /** The "key: value" line of a known field. */
  function KnownLine(d: UserData, field: string): string
    requires Known(FieldValue(d, field))
  {
    field + ": " + FieldValue(d, field).value
  }

  /** The lines for the truthy fields of `fields`, in the order given. */
  function KnownLines(d: UserData, fields: seq<string>): seq<string>
  {
    if fields == [] then []
    else (if Known(FieldValue(d, fields[0])) then [KnownLine(d, fields[0])] else []) + KnownLines(d, fields[1..])
  }

  /**
   * `knownInfo`: the entries of the profile, minus `lastUpdated` and
   * `isComplete`, whose value is truthy, as "key: value".
   */
  function KnownInfo(d: UserData): seq<string>
  {
    KnownLines(d, FieldOrder)
  }

  /** The known lines, field by field. */
  lemma KnownInfoUnfold(d: UserData)
    ensures KnownInfo(d) ==
      (if Known(d.name) then [KnownLine(d, "name")] else []) +
      (if Known(d.location) then [KnownLine(d, "location")] else []) +
      (if Known(d.occupation) then [KnownLine(d, "occupation")] else [])
  {
    var s0, s1, s2: seq<string> := ["name", "location", "occupation"], ["location", "occupation"], ["occupation"];
    assert s0[1..] == s1 && s1[1..] == s2 && s2[1..] == [];
    assert KnownLines(d, s2) == (if Known(d.occupation) then [KnownLine(d, "occupation")] else []);
    assert KnownLines(d, s1) == (if Known(d.location) then [KnownLine(d, "location")] else []) + KnownLines(d, s2);
    assert KnownLines(d, s0) == (if Known(d.name) then [KnownLine(d, "name")] else []) + KnownLines(d, s1);
  }

  lemma {:induction false} KnownLinesMembers(d: UserData, fields: seq<string>)
    ensures forall f :: f in fields && Known(FieldValue(d, f)) ==> KnownLine(d, f) in KnownLines(d, fields)
    ensures forall l :: l in KnownLines(d, fields) ==>
      exists f :: f in fields && Known(FieldValue(d, f)) && l == KnownLine(d, f)
  {
    if fields != [] {
      KnownLinesMembers(d, fields[1..]);
      assert fields == [fields[0]] + fields[1..];
    }
  }

  /** Every tracked field is either listed as known or reported as missing. */
  lemma {:induction false} KnownAndUnknownPartition(d: UserData, fields: seq<string>)
    ensures |KnownLines(d, fields)| + |UnknownAmong(d, fields)| == |fields|
  {
    if fields != [] {
      KnownAndUnknownPartition(d, fields[1..]);
    }
  }

  /** The known lines are exactly those of the truthy fields; with the missing list they cover all three. */
  lemma KnownInfoExact(d: UserData)
    ensures forall f :: f in FieldOrder && Known(FieldValue(d, f)) ==> KnownLine(d, f) in KnownInfo(d)
    ensures forall l :: l in KnownInfo(d) ==>
      exists f :: f in FieldOrder && Known(FieldValue(d, f)) && l == KnownLine(d, f)
    ensures |KnownInfo(d)| + |MissingFields(d)| == |FieldOrder|
  {
    KnownLinesMembers(d, FieldOrder);
    KnownAndUnknownPartition(d, FieldOrder);
  }

  /** Some tracked field is truthy. */
  predicate AnyKnown(d: UserData)
  {
    exists f :: f in FieldOrder && Known(FieldValue(d, f))
  }

  lemma KnownInfoNonEmptyIff(d: UserData)
    ensures |KnownInfo(d)| > 0 <==> AnyKnown(d)
  {
    KnownInfoExact(d);
    if |KnownInfo(d)| > 0 {
      assert KnownInfo(d)[0] in KnownInfo(d);
    }
  }

  const NamePrompt := "I don't know your name yet. Could you tell me what it is?"
  const LocationPrompt := "Where are you currently located?"
  const OccupationPrompt := "What do you do for work?"

  /**
   * `prompts[field]`. A key that is neither tracked nor an `Object.prototype`
   * property gives `undefined`, which `join` renders as "".
   */
  function Prompt(field: string): string
  {
    if field == "name" then NamePrompt
    else if field == "location" then LocationPrompt
    else if field == "occupation" then OccupationPrompt
    else ""
  }

  /** `Array.prototype.join(sep)` over strings. */
  function Join(parts: seq<string>, sep: string): string
  {
    if |parts| == 0 then ""
    else if |parts| == 1 then parts[0]
    else parts[0] + sep + Join(parts[1..], sep)
  }

  /** `missingFields.map((field) => prompts[field])`. */
  function Prompts(missing: seq<string>): (r: seq<string>)
    ensures |r| == |missing|
    ensures forall i :: 0 <= i < |missing| ==> r[i] == Prompt(missing[i])
  {
    seq(|missing|, i requires 0 <= i < |missing| => Prompt(missing[i]))
  }

  const KnownHeader := "Known Information:"
  const MissingHeader := "\n\nMissing Information:"

  /** The "Known Information" block, empty when nothing is known. */
  function KnownBlock(d: UserData): string
  {
    if |KnownInfo(d)| > 0 then KnownHeader + "\n" + Join(KnownInfo(d), "\n") else ""
  }

  /** The "Missing Information" block, empty when nothing is missing. */
  function MissingBlock(missing: seq<string>): string
  {
    if |missing| > 0 then MissingHeader + "\n" + Join(Prompts(missing), "\n") else ""
  }

  /** The text `generateGuidance` returns. */
  function Guidance(d: UserData, missing: seq<string>): string
  {
    KnownBlock(d) + MissingBlock(missing)
  }

  predicate StartsWith(s: string, prefix: string)
  {
    |prefix| <= |s| && s[..|prefix|] == prefix
  }

  /** `generateGuidance`: append the known block, then the missing block. */
  method GenerateGuidance(d: UserData, missingFields: seq<string>) returns (guidance: string)
    ensures guidance == Guidance(d, missingFields)
    ensures StartsWith(guidance, KnownHeader) <==> AnyKnown(d)
    ensures missingFields == [] ==> guidance == KnownBlock(d)
    ensures missingFields != [] ==> guidance == KnownBlock(d) + MissingHeader + "\n" + Join(Prompts(missingFields), "\n")
    ensures guidance == "" <==> !AnyKnown(d) && missingFields == []
  {
    guidance := "";
    var knownInfo := KnownInfo(d);
    if |knownInfo| > 0 {
      guidance := guidance + (KnownHeader + "\n" + Join(knownInfo, "\n"));
    }
    assert guidance == KnownBlock(d);
    if |missingFields| > 0 {
      guidance := guidance + MissingHeader;
      guidance := guidance + ("\n" + Join(Prompts(missingFields), "\n"));
    }
    assert guidance == Guidance(d, missingFields);
    GuidanceShape(d, missingFields);
  }

  /** What the guidance text looks like, block by block. */
  lemma GuidanceShape(d: UserData, missing: seq<string>)
    ensures StartsWith(Guidance(d, missing), KnownHeader) <==> AnyKnown(d)
    ensures missing == [] ==> Guidance(d, missing) == KnownBlock(d)
    ensures missing != [] ==> Guidance(d, missing) == KnownBlock(d) + MissingHeader + "\n" + Join(Prompts(missing), "\n")
    ensures Guidance(d, missing) == "" <==> !AnyKnown(d) && missing == []
  {
    GuidanceStartsKnownIff(d, missing);
    GuidanceEmptyIff(d, missing);
  }

  /** The guidance opens with the known block exactly when some field is known. */
  lemma GuidanceStartsKnownIff(d: UserData, missing: seq<string>)
    ensures StartsWith(Guidance(d, missing), KnownHeader) <==> AnyKnown(d)
  {
    KnownInfoNonEmptyIff(d);
    if AnyKnown(d) {
      GuidanceOpensWithKnownBlock(d, missing);
    } else if missing != [] {
      GuidanceOpensWithMissingBlock(d, missing);
    }
  }

  lemma GuidanceOpensWithKnownBlock(d: UserData, missing: seq<string>)
    requires |KnownInfo(d)| > 0
    ensures StartsWith(Guidance(d, missing), KnownHeader)
  {
    PrefixOfConcat(KnownHeader, "\n" + Join(KnownInfo(d), "\n"));
    assert KnownBlock(d) == KnownHeader + ("\n" + Join(KnownInfo(d), "\n"));
    PrefixExtends(KnownBlock(d), KnownHeader, MissingBlock(missing));
  }

  lemma GuidanceOpensWithMissingBlock(d: UserData, missing: seq<string>)
    requires |KnownInfo(d)| == 0 && missing != []
    ensures Guidance(d, missing)[0] == '\n'
  {
    var tail := "\n" + Join(Prompts(missing), "\n");
    assert Guidance(d, missing) == MissingHeader + tail;
  }

  lemma PrefixOfConcat(prefix: string, tail: string)
    ensures StartsWith(prefix + tail, prefix)
  {
    assert (prefix + tail)[..|prefix|] == prefix;
  }

  lemma PrefixExtends(s: string, prefix: string, tail: string)
    requires StartsWith(s, prefix)
    ensures StartsWith(s + tail, prefix)
  {
    assert (s + tail)[..|prefix|] == s[..|prefix|];
  }

  /** The guidance is empty exactly when nothing is known and nothing is missing. */
  lemma GuidanceEmptyIff(d: UserData, missing: seq<string>)
    ensures Guidance(d, missing) == "" <==> !AnyKnown(d) && missing == []
  {
    KnownInfoNonEmptyIff(d);
  }

  /** `runtime.cacheManager`: a reachable map from keys to profiles, or a store whose reads throw. */
  datatype CacheManager = Failing | Available(entries: map<string, UserData>)

  /** The object `userDataProvider.get` returns. */
  datatype ProviderResult = ProviderResult(
    userData: UserData,
    missingInfo: seq<string>,
    isComplete: bool,
    guidance: string,
    needsUpdate: bool,
    lastUpdated: Option<int>)

  const FailureMessage := "Failed to process user data"

  /** The profile used when the cache has no entry for the user. */
  function DefaultUserData(now: int): UserData
  {
    UserData(None, None, None, Some(now), Some(false))
  }

  /**
   * `userDataProvider.get`: read the cached profile (or the all-null
   * default), compute the missing fields and the guidance. A failing
   * cache read is rethrown as an error.
   */
  method Get(cache: CacheManager, characterName: string, userId: string, now: int)
    returns (r: Result<ProviderResult, string>)
    ensures r.Err? <==> cache.Failing?
    ensures r.Err? ==> r.error == FailureMessage
    ensures r.Ok? ==>
      var key := GetCacheKey(characterName, userId);
      && r.value.userData == (if key in cache.entries then cache.entries[key] else DefaultUserData(now))
      && r.value.missingInfo == MissingFields(r.value.userData)
      && r.value.isComplete == (r.value.missingInfo == [])
      && r.value.isComplete == IsDataComplete(r.value.userData)
      && r.value.needsUpdate == !r.value.isComplete
      && r.value.guidance == Guidance(r.value.userData, r.value.missingInfo)
      && r.value.lastUpdated == r.value.userData.lastUpdated
      && (key !in cache.entries ==> r.value.missingInfo == FieldOrder && !r.value.isComplete)
  {
    if cache.Failing? {
      return Err(FailureMessage);
    }
    var cacheKey := GetCacheKey(characterName, userId);
    var userData := if cacheKey in cache.entries then cache.entries[cacheKey] else DefaultUserData(now);
    var missingFields := GetMissingFields(userData);
    var guidance := GenerateGuidance(userData, missingFields);
    if cacheKey !in cache.entries {
      CacheMissMissesAll(now);
    }
    r := Ok(ProviderResult(userData, missingFields, |missingFields| == 0, guidance,
                           |missingFields| > 0, userData.lastUpdated));
  }

  /** On a cache miss every field is missing, in declaration order. */
  lemma CacheMissMissesAll(now: int)
    ensures MissingFields(DefaultUserData(now)) == FieldOrder
    ensures !IsDataComplete(DefaultUserData(now))
    ensures KnownInfo(DefaultUserData(now)) == []
  {
    MissingFieldsUnfold(DefaultUserData(now));
    KnownInfoUnfold(DefaultUserData(now));
  }

  /** The stored `isComplete` flag plays no part in what the provider reports. */
  lemma ReportIgnoresStoredFlag(d: UserData, flag: Option<bool>)
    ensures MissingFields(d.(isComplete := flag)) == MissingFields(d)
    ensures IsDataComplete(d.(isComplete := flag)) == IsDataComplete(d)
    ensures Guidance(d.(isComplete := flag), MissingFields(d)) == Guidance(d, MissingFields(d))
  {
    MissingFieldsUnfold(d);
    MissingFieldsUnfold(d.(isComplete := flag));
    KnownInfoUnfold(d);
    KnownInfoUnfold(d.(isComplete := flag));
  }

  /** Only '/'-free character names keep cache keys apart; the user id may hold '/'. */
  lemma CacheKeyInjective(c1: string, u1: string, c2: string, u2: string)
    requires '/' !in c1 && '/' !in c2
    requires GetCacheKey(c1, u1) == GetCacheKey(c2, u2)
    ensures c1 == c2 && u1 == u2
  {
    var key := GetCacheKey(c1, u1);
    assert key == c1 + ("/" + u1 + "/data");
    assert key == c2 + ("/" + u2 + "/data");
    assert key[|c1|] == '/' && key[|c2|] == '/';
    assert forall k :: 0 <= k < |c1| ==> key[k] == c1[k] != '/';
    assert forall k :: 0 <= k < |c2| ==> key[k] == c2[k] != '/';
    assert |c1| == |c2|;
    assert c1 == key[..|c1|] == c2;
    assert |u1| == |u2|;
    assert u1 == key[|c1| + 1..|key| - 5] == u2;
  }

  /** A '/' in a character name lets two different users share one cache key. */
  lemma CacheKeyCollision()
    ensures GetCacheKey("a/b", "c") == GetCacheKey("a", "b/c")
  {
  }

  /** A profile with only a name: two missing fields and a guidance text naming the known one. */
  lemma OnlyNameKnownScenario()
    ensures var d := UserData(Some("Alex"), None, None, None, None);
      && MissingFields(d) == ["location", "occupation"]
      && KnownBlock(d) == KnownHeader + "\n" + "name: Alex"
      && MissingBlock(MissingFields(d)) == MissingHeader + "\n" + LocationPrompt + "\n" + OccupationPrompt
  {
    var d := UserData(Some("Alex"), None, None, None, None);
    MissingFieldsUnfold(d);
    OnlyNameKnownBlock(d);
    TwoPromptBlock();
  }

  lemma OnlyNameKnownBlock(d: UserData)
    requires d == UserData(Some("Alex"), None, None, None, None)
    ensures KnownBlock(d) == KnownHeader + "\n" + "name: Alex"
  {
    KnownInfoUnfold(d);
    assert KnownInfo(d) == ["name" + ": " + "Alex"];
    assert Join(KnownInfo(d), "\n") == "name" + ": " + "Alex";
  }

  lemma TwoPromptBlock()
    ensures MissingBlock(["location", "occupation"]) == MissingHeader + "\n" + LocationPrompt + "\n" + OccupationPrompt
  {
    var a, b := LocationPrompt, OccupationPrompt;
    var ps := Prompts(["location", "occupation"]);
    assert ps == [a, b] && ps[1..] == [b];
    assert Join(ps, "\n") == a + "\n" + b;
  }
}

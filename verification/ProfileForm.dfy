/**
 The profile form of a professional: how its text fields are normalised, and when it is refused.

 Lower-casing and the table of time zones belong to the Go library and are parameters.
 */
module ProfileForms {
  import opened Wrappers
  import opened Schedule
  import Text

  const NO_CATEGORY := 0 // the nil id
  const MAX_BIO := 600
  const MAX_SKILLS := 20
  const MAX_SKILL := 50
  const MIN_REGION := 2
  const MAX_REGION := 120
  const MAX_RADIUS := 200
  const MAX_PRICE_CENTS := 100_000_000

  type Lowering = string -> string

  datatype Form = Form(
    bio: string,
    category: int,
    skills: seq<string>,
    region: string,
    latitude: Option<real>,
    longitude: Option<real>,
    radiusKm: int,
    priceCents: Option<int>,
    availableNow: bool,
    timezone: string,
    periods: seq<Period>)

  /** The characters Go's strings.TrimSpace removes. */
  predicate IsSpace(c: char) {
    || '\t' <= c <= '\r' || c == ' ' || c == '\U{85}' || c == '\U{a0}' || c == '\U{1680}'
    || '\U{2000}' <= c <= '\U{200a}' || c == '\U{2028}' || c == '\U{2029}' || c == '\U{202f}'
    || c == '\U{205f}' || c == '\U{3000}'
  }

  function TrimSpace(s: string): string {
    Text.Trim(s, IsSpace)
  }

  // ----- the skills -----

  function Keys(skills: seq<string>, lower: Lowering): set<string> {
    set s | s in skills :: lower(s)
  }

  /** Trimmed, without blanks, and without a skill that differs from an earlier one only in case. */
  function NormalSkills(skills: seq<string>, lower: Lowering): seq<string> {
    if |skills| == 0 then []
    else
      var before, skill := NormalSkills(skills[..|skills| - 1], lower), TrimSpace(skills[|skills| - 1]);
      if skill == "" || lower(skill) in Keys(before, lower) then before else before + [skill]
  }

  predicate HasKey(skill: string, lower: Lowering, key: string) {
    TrimSpace(skill) != "" && lower(TrimSpace(skill)) == key
  }

  predicate SomeHasKey(skills: seq<string>, lower: Lowering, key: string) {
    exists i :: 0 <= i < |skills| && HasKey(skills[i], lower, key)
  }

  /** `i` is the first skill of its key that is not blank. */
  predicate IsFirst(skills: seq<string>, lower: Lowering, i: nat)
    requires i < |skills|
  {
    TrimSpace(skills[i]) != "" && !SomeHasKey(skills[..i], lower, lower(TrimSpace(skills[i])))
  }

  /** Nothing is blank or untrimmed, and no two skills have one key. */
  ghost predicate Normal(skills: seq<string>, lower: Lowering) {
    && (forall s :: s in skills ==> s != "" && Text.Trimmed(s, IsSpace))
    && (forall i, j :: 0 <= i < j < |skills| ==> lower(skills[i]) != lower(skills[j]))
  }

  lemma LastMayHaveKey(skills: seq<string>, lower: Lowering, key: string)
    requires |skills| > 0
    ensures SomeHasKey(skills, lower, key) <==>
              SomeHasKey(skills[..|skills| - 1], lower, key) || HasKey(skills[|skills| - 1], lower, key)
  {
    var n := |skills| - 1;
    if i :| 0 <= i < |skills| && HasKey(skills[i], lower, key) {
      assert i < n ==> HasKey(skills[..n][i], lower, key);
    }
    if i :| 0 <= i < n && HasKey(skills[..n][i], lower, key) {
      assert HasKey(skills[i], lower, key);
    }
  }

  lemma {:induction false} NormalSkillsKeys(skills: seq<string>, lower: Lowering, key: string)
    ensures key in Keys(NormalSkills(skills, lower), lower) <==> SomeHasKey(skills, lower, key)
  {
    if |skills| > 0 {
      var n := |skills| - 1;
      NormalSkillsKeys(skills[..n], lower, key);
      LastMayHaveKey(skills, lower, key);
      var before, skill := NormalSkills(skills[..n], lower), TrimSpace(skills[n]);
      assert Keys(before + [skill], lower) == Keys(before, lower) + {lower(skill)};
    }
  }

  lemma FirstInFront(skills: seq<string>, lower: Lowering, n: nat, i: nat)
    requires i < n <= |skills|
    ensures IsFirst(skills[..n], lower, i) <==> IsFirst(skills, lower, i)
  {
    assert skills[..n][..i] == skills[..i];
  }

  lemma LastIsFirst(skills: seq<string>, lower: Lowering)
    requires |skills| > 0
    ensures IsFirst(skills, lower, |skills| - 1) <==>
              NormalSkills(skills, lower) != NormalSkills(skills[..|skills| - 1], lower)
  {
    var n := |skills| - 1;
    var before, skill := NormalSkills(skills[..n], lower), TrimSpace(skills[n]);
    NormalSkillsKeys(skills[..n], lower, lower(skill));
    assert before + [skill] != before;
  }

  /** `at` are places of skills that, trimmed, make `normal`, in order. */
  ghost predicate PicksInOrder(skills: seq<string>, at: seq<nat>, normal: seq<string>) {
    && |at| == |normal|
    && (forall k :: 0 <= k < |at| ==> at[k] < |skills| && normal[k] == TrimSpace(skills[at[k]]))
    && (forall j, k :: 0 <= j < k < |at| ==> at[j] < at[k])
  }

  ghost predicate AreFirsts(skills: seq<string>, lower: Lowering, at: seq<nat>) {
    forall i: nat {:trigger i in at} :: i < |skills| ==> (i in at <==> IsFirst(skills, lower, i))
  }

  lemma OneMorePick(skills: seq<string>, before: seq<nat>, normal: seq<string>)
    requires |skills| > 0 && PicksInOrder(skills[..|skills| - 1], before, normal)
    ensures PicksInOrder(skills, before, normal)
    ensures PicksInOrder(skills, before + [|skills| - 1], normal + [TrimSpace(skills[|skills| - 1])])
  {
    forall k | 0 <= k < |before| ensures skills[before[k]] == skills[..|skills| - 1][before[k]] {}
  }

  lemma OneMoreFirst(skills: seq<string>, lower: Lowering, before: seq<nat>, at: seq<nat>)
    requires |skills| > 0 && AreFirsts(skills[..|skills| - 1], lower, before)
    requires forall i :: i in before ==> i < |skills| - 1
    requires at == if IsFirst(skills, lower, |skills| - 1) then before + [|skills| - 1] else before
    ensures AreFirsts(skills, lower, at)
  {
    var n := |skills| - 1;
    forall i: nat {:trigger i in at} | i < |skills| ensures i in at <==> IsFirst(skills, lower, i) {
      if i < n {
        FirstInFront(skills, lower, n, i);
        assert i in at <==> i in before;
      }
    }
  }

  /** What is kept is exactly the first skill of every key, trimmed, in the order of the form; `at` are
      their places. */
  lemma {:induction false} NormalSkillsAreFirsts(skills: seq<string>, lower: Lowering) returns (at: seq<nat>)
    ensures PicksInOrder(skills, at, NormalSkills(skills, lower))
    ensures AreFirsts(skills, lower, at)
  {
    if |skills| == 0 {
      at := [];
    } else {
      var n := |skills| - 1;
      var before := NormalSkillsAreFirsts(skills[..n], lower);
      LastIsFirst(skills, lower);
      OneMorePick(skills, before, NormalSkills(skills[..n], lower));
      at := if IsFirst(skills, lower, n) then before + [n] else before;
      OneMoreFirst(skills, lower, before, at);
    }
  }

  lemma {:induction false} NormalSkillsAreNormal(skills: seq<string>, lower: Lowering)
    ensures Normal(NormalSkills(skills, lower), lower)
  {
    if |skills| > 0 {
      var before, skill := NormalSkills(skills[..|skills| - 1], lower), TrimSpace(skills[|skills| - 1]);
      NormalSkillsAreNormal(skills[..|skills| - 1], lower);
      Text.TrimTrims(skills[|skills| - 1], IsSpace);
      if skill != "" && lower(skill) !in Keys(before, lower) {
        forall i | 0 <= i < |before| ensures lower(before[i]) != lower(skill) {
          assert before[i] in before;
        }
      }
    }
  }

  lemma FrontIsNormal(skills: seq<string>, lower: Lowering)
    requires Normal(skills, lower) && |skills| > 0
    ensures var n := |skills| - 1;
            && Normal(skills[..n], lower) && lower(skills[n]) !in Keys(skills[..n], lower)
            && skills[n] != "" && Text.Trimmed(skills[n], IsSpace)
  {
    var n := |skills| - 1;
    assert skills[n] in skills;
    forall s | s in skills[..n] ensures s in skills && lower(s) != lower(skills[n]) {
      var i :| 0 <= i < n && skills[..n][i] == s;
      assert skills[i] == s;
    }
  }

  /** Skills in normal form stay as they are, so normalising twice is normalising once. */
  lemma {:induction false} NormalIsFixed(skills: seq<string>, lower: Lowering)
    requires Normal(skills, lower)
    ensures NormalSkills(skills, lower) == skills
  {
    if |skills| > 0 {
      var n := |skills| - 1;
      var front, skill := skills[..n], skills[n];
      FrontIsNormal(skills, lower);
      NormalIsFixed(front, lower);
      Text.TrimmedIsFixed(skill, IsSpace);
      assert skills == front + [skill];
    }
  }

  /** The loop over the skills, with the set of keys seen. */
  method NormalizeSkills(skills: seq<string>, lower: Lowering) returns (normal: seq<string>)
    ensures normal == NormalSkills(skills, lower)
    ensures Normal(normal, lower)
  {
    var seen: set<string> := {};
    normal := [];
    for k := 0 to |skills|
      invariant normal == NormalSkills(skills[..k], lower)
      invariant seen == Keys(normal, lower)
    {
      assert skills[..k + 1][..k] == skills[..k];
      var skill := TrimSpace(skills[k]);
      var key := lower(skill);
      if skill == "" || key in seen {
        continue;
      }
      seen := seen + {key};
      normal := normal + [skill];
    }
    assert skills[..|skills|] == skills;
    NormalSkillsAreNormal(skills, lower);
  }

  // ----- the whole form -----

  function Normalized(form: Form, lower: Lowering): Form {
    form.(bio := TrimSpace(form.bio), region := TrimSpace(form.region), timezone := TrimSpace(form.timezone),
          skills := NormalSkills(form.skills, lower))
  }

  predicate InDegrees(x: Option<real>, limit: real) {
    x.Some? ==> -limit <= x.value <= limit
  }

  /** All checks but those of the schedule, on a normalised form. */
  predicate FieldsValid(form: Form, zones: set<string>) {
    && Text.Bytes(form.bio) <= MAX_BIO && form.category != NO_CATEGORY
    && |form.skills| <= MAX_SKILLS && (forall s :: s in form.skills ==> Text.Bytes(s) <= MAX_SKILL)
    && MIN_REGION <= Text.Bytes(form.region) <= MAX_REGION
    && 1 <= form.radiusKm <= MAX_RADIUS
    && (form.priceCents.Some? ==> 0 <= form.priceCents.value <= MAX_PRICE_CENTS)
    && (form.latitude.Some? <==> form.longitude.Some?)
    && InDegrees(form.latitude, 90.0) && InDegrees(form.longitude, 180.0)
    && form.timezone != "" && form.timezone in zones
  }

  /** The validator accepts the form. */
  ghost predicate Accepted(form: Form, zones: set<string>) {
    && FieldsValid(form, zones)
    && |form.periods| <= MAX_PERIODS && GoodSchedule(form.periods) && OrderAgrees(form.periods)
  }

  lemma NormalizedTwice(form: Form, lower: Lowering)
    ensures Normalized(Normalized(form, lower), lower) == Normalized(form, lower)
  {
    NormalSkillsAreNormal(form.skills, lower);
    NormalIsFixed(NormalSkills(form.skills, lower), lower);
    TrimmedTwice(form.bio);
    TrimmedTwice(form.region);
    TrimmedTwice(form.timezone);
  }

  lemma TrimmedTwice(s: string)
    ensures TrimSpace(TrimSpace(s)) == TrimSpace(s)
  {
    Text.TrimTrims(s, IsSpace);
    Text.TrimmedIsFixed(TrimSpace(s), IsSpace);
  }

  /** `sorted` is what the library sort returned for the periods. */
  method ValidateForm(form: Form, zones: set<string>, sorted: seq<Period>) returns (ok: bool)
    requires IsSortOf(form.periods, sorted)
    ensures ok <==> Accepted(form, zones)
  {
    if Text.Bytes(form.bio) > MAX_BIO || form.category == NO_CATEGORY || |form.skills| > MAX_SKILLS
       || Text.Bytes(form.region) < MIN_REGION || Text.Bytes(form.region) > MAX_REGION {
      return false;
    }
    for k := 0 to |form.skills|
      invariant forall j :: 0 <= j < k ==> Text.Bytes(form.skills[j]) <= MAX_SKILL
    {
      if Text.Bytes(form.skills[k]) > MAX_SKILL {
        assert form.skills[k] in form.skills;
        return false;
      }
    }
    if form.radiusKm < 1 || form.radiusKm > MAX_RADIUS
       || (form.priceCents.Some? && (form.priceCents.value < 0 || form.priceCents.value > MAX_PRICE_CENTS)) {
      return false;
    }
    if form.latitude.None? != form.longitude.None? {
      return false;
    }
    if form.latitude.Some? && (form.latitude.value < -90.0 || form.latitude.value > 90.0
                               || form.longitude.value < -180.0 || form.longitude.value > 180.0) {
      return false;
    }
    if form.timezone == "" || form.timezone !in zones {
      return false;
    }
    ok := ValidateSchedule(form.periods, sorted);
  }
}

/** The field-whitelist loops of the profile handlers: each walks a fixed list
    of field names with `forEach` and copies the request-body values it keeps
    into a fresh object (`expFields`, `eduFields`, `profileFields`,
    `profileFields.socials`). One of the names may be a comma-separated list
    that is split and trimmed on the way. */
module Fields {
  import opened Common
  import Text

  const ExperienceKeys: seq<string> :=
    ["title", "company", "location", "startdate", "enddate", "current", "description"]
  const EducationKeys: seq<string> :=
    ["school", "degree", "fieldofstudy", "startdate", "enddate", "current", "courses"]
  const ProfileKeys: seq<string> :=
    ["company", "website", "location", "bio", "status", "githubprofile", "skills"]
  const SocialKeys: seq<string> :=
    ["youtube", "twitter", "facebook", "linkedin", "instagram"]

  /** How a loop treats its list-valued field, if it has one: `skills` is
      split only when it is truthy, `courses` is split unconditionally. */
  datatype SplitRule = NoSplit | SplitIfGiven(key: string) | SplitAlways(key: string)

  /** The loop splits the value of `k` instead of copying it. */
  predicate Splits(rule: SplitRule, k: string) {
    !rule.NoSplit? && k == rule.key
  }

  /** One pass of the loop writes `k` into the object it builds. */
  predicate Writes(body: Body, rule: SplitRule, k: string) {
    (rule.SplitAlways? && k == rule.key) || Given(body, k)
  }

  /** That pass calls `.split` on a value that is not a string (absent,
      `null`, a number, a boolean or an array) and so throws a `TypeError`. */
  predicate SplitThrows(body: Body, rule: SplitRule, k: string) {
    Splits(rule, k) && Writes(body, rule, k) && !(k in body && body[k].Str?)
  }

  /** The value that pass writes for `k`. */
  function Written(body: Body, rule: SplitRule, k: string): Value
    requires Writes(body, rule, k) && !SplitThrows(body, rule, k)
  {
    if Splits(rule, k) then Strs(Text.SplitTrim(body[k].s)) else body[k]
  }

  /** The object the loop over `keys` builds, or `None` when it throws. */
  function Build(body: Body, keys: seq<string>, rule: SplitRule): Option<map<string, Value>>
  {
    if exists k :: k in keys && SplitThrows(body, rule, k) then None
    else Some(map k | k in keys && Writes(body, rule, k) :: Written(body, rule, k))
  }

  /** A loop without a list field keeps exactly the listed, truthy fields. */
  function Pick(body: Body, keys: seq<string>): (m: map<string, Value>)
    ensures Build(body, keys, NoSplit) == Some(m)
  {
    var m := map k | k in keys && Given(body, k) :: body[k];
    assert !exists k :: k in keys && SplitThrows(body, NoSplit, k);
    assert m == map k | k in keys && Writes(body, NoSplit, k) :: Written(body, NoSplit, k);
    m
  }

  /** The field loop itself: `keys.forEach(...)`, leaving the loop by a throw
      when `.split` meets a value that is not a string. */
  method BuildFields(body: Body, keys: seq<string>, rule: SplitRule)
    returns (built: Option<map<string, Value>>)
    ensures built == Build(body, keys, rule)
  {
    var fields: map<string, Value> := map[];
    var i := 0;
    while i < |keys|
      invariant 0 <= i <= |keys|
      invariant forall k :: k in keys[..i] ==> !SplitThrows(body, rule, k)
      invariant fields == map k | k in keys[..i] && Writes(body, rule, k) :: Written(body, rule, k)
    {
      var key := keys[i];
      assert keys[..i + 1] == keys[..i] + [key];
      if Splits(rule, key) && Writes(body, rule, key) {
        if !(key in body && body[key].Str?) {
          assert key in keys && SplitThrows(body, rule, key);
          return None;
        }
        fields := fields[key := Strs(Text.SplitTrim(body[key].s))];
      } else if Given(body, key) {
        fields := fields[key := body[key]];
      }
      i := i + 1;
    }
    assert keys[..i] == keys;
    built := Some(fields);
  }

  /** An object that holds only fields of `keys`, each with a truthy value. */
  predicate Whitelisted(fields: map<string, Value>, keys: seq<string>) {
    forall k :: k in fields ==> k in keys && Truthy(fields[k])
  }

  /** Whitelisting: the built object holds only listed fields, each truthy; a
      field that is not split was sent truthy and is copied unchanged; every
      listed truthy field is kept; a split field holds the trimmed
      comma-separated pieces. */
  lemma BuildWhitelists(body: Body, keys: seq<string>, rule: SplitRule, k: string)
    requires Build(body, keys, rule).Some?
    ensures var m := Build(body, keys, rule).value;
      && (k in m ==> k in keys && Truthy(m[k]))
      && (k in m && !Splits(rule, k) ==> Given(body, k) && m[k] == body[k])
      && (k in keys && Given(body, k) ==> k in m)
      && (k in m && Splits(rule, k) ==> k in body && body[k].Str? && m[k] == Strs(Text.SplitTrim(body[k].s)))
  {
  }

  /** Every object a loop builds is whitelisted. */
  lemma BuiltWhitelisted(body: Body, keys: seq<string>, rule: SplitRule)
    requires Build(body, keys, rule).Some?
    ensures Whitelisted(Build(body, keys, rule).value, keys)
  {
    forall k | k in Build(body, keys, rule).value
      ensures k in keys && Truthy(Build(body, keys, rule).value[k])
    {
      BuildWhitelists(body, keys, rule, k);
    }
  }

  /** The education loop throws exactly when `courses` is not a string, even
      an empty one; a string, even "", is always split. */
  lemma EducationCoursesAlwaysSplit(body: Body)
    ensures Build(body, EducationKeys, SplitAlways("courses")).None? <==>
            !("courses" in body && body["courses"].Str?)
    ensures Build(body, EducationKeys, SplitAlways("courses")).Some? ==>
            var m := Build(body, EducationKeys, SplitAlways("courses")).value;
            "courses" in m && m["courses"] == Strs(Text.SplitTrim(body["courses"].s))
  {
    assert "courses" in EducationKeys;
  }

  /** The profile loop throws exactly when `skills` is truthy but not a
      string; falsy `skills` is simply not written. */
  lemma ProfileSkillsSplitWhenGiven(body: Body)
    ensures Build(body, ProfileKeys, SplitIfGiven("skills")).None? <==>
            (Given(body, "skills") && !body["skills"].Str?)
    ensures Build(body, ProfileKeys, SplitIfGiven("skills")).Some? ==>
            var m := Build(body, ProfileKeys, SplitIfGiven("skills")).value;
            ("skills" in m <==> Given(body, "skills")) &&
            ("skills" in m ==> m["skills"] == Strs(Text.SplitTrim(body["skills"].s)))
  {
    assert "skills" in ProfileKeys;
  }
}

/** The profile subdocument editor: the profile upsert and the add, update and
    delete handlers for the `experience` and `education` lists of a profile.
    Each handler validates the body, builds the entry fields, loads the
    caller's profile, edits one list in place (`unshift`, index assignment,
    `splice`) and saves the document. */
module Profiles {
  import opened Common
  import opened Fields

  /** An experience or education subdocument: its `_id`, fixed when it is
      inserted, and its fields. */
  datatype Entry = Entry(id: Id, fields: map<string, Value>)

  /** The two lists follow one protocol over different fields. */
  datatype ListKind = Experience | Education {
    function Other(): ListKind {
      if this == Experience then Education else Experience
    }
  }

  /** The fields the handlers of a list copy from the body. */
  function Keys(kind: ListKind): seq<string> {
    if kind == Experience then ExperienceKeys else EducationKeys
  }

  /** Experience has no list field; education always splits `courses`. */
  function Rule(kind: ListKind): SplitRule {
    if kind == Experience then NoSplit else SplitAlways("courses")
  }

  /** The fields the add and update routes check with `not().isEmpty()`. */
  function Required(kind: ListKind): seq<string> {
    if kind == Experience then ["title", "company", "startdate"]
    else ["school", "degree", "fieldofstudy", "startdate"]
  }

  /** The fields the upsert route checks with `not().isEmpty()`. */
  const ProfileRequired: seq<string> := ["status", "skills"]

  predicate HasId(entries: seq<Entry>, id: Id) {
    exists i :: 0 <= i < |entries| && entries[i].id == id
  }

  /** No two entries of a list share an `_id`. */
  predicate UniqueIds(entries: seq<Entry>) {
    forall i, j :: 0 <= i < j < |entries| ==> entries[i].id != entries[j].id
  }

  /** `entries.findIndex((e) => e._id.toString() === id)`: the position of the
      first entry with that id, or -1 when there is none. */
  function FindIndex(entries: seq<Entry>, id: Id): (r: int)
    ensures -1 <= r < |entries|
    ensures r == -1 <==> !HasId(entries, id)
    ensures r >= 0 ==> entries[r].id == id && forall j :: 0 <= j < r ==> entries[j].id != id
  {
    if entries == [] then -1
    else if entries[0].id == id then 0
    else
      var r := FindIndex(entries[1..], id);
      if r == -1 then
        assert forall i :: 0 < i < |entries| ==> entries[i] == entries[1..][i - 1];
        -1
      else r + 1
  }

  /** `{ ...entry._doc, ...built }`: a shallow merge in which the built fields
      overwrite and every other field, and the `_id`, is kept. */
  function Merged(e: Entry, built: map<string, Value>): (r: Entry)
    ensures r.id == e.id
    ensures forall k :: k in r.fields <==> k in e.fields || k in built
    ensures forall k :: k in built ==> r.fields[k] == built[k]
    ensures forall k :: k in e.fields && k !in built ==> r.fields[k] == e.fields[k]
  {
    Entry(e.id, e.fields + built)
  }

  /** With unique ids, the entry `FindIndex` finds is the only one with that id. */
  lemma FindIndexUnique(entries: seq<Entry>, id: Id, i: int)
    requires UniqueIds(entries)
    requires 0 <= i < |entries| && entries[i].id == id
    ensures FindIndex(entries, id) == i
  {
  }

  /** Front insertion of an entry with a new id keeps the ids unique. */
  lemma {:induction false} UnshiftKeepsIdsUnique(entries: seq<Entry>, e: Entry)
    requires UniqueIds(entries) && !HasId(entries, e.id)
    ensures UniqueIds([e] + entries) && HasId([e] + entries, e.id)
  {
    var r := [e] + entries;
    forall i, j | 0 <= i < j < |r| ensures r[i].id != r[j].id {
      if i == 0 {
        assert r[j] == entries[j - 1];
      } else {
        assert r[i] == entries[i - 1] && r[j] == entries[j - 1];
      }
    }
    assert r[0] == e;
  }

  /** Replacing an entry by one with the same id keeps the ids unique. */
  lemma SameIdKeepsIdsUnique(entries: seq<Entry>, i: int, e: Entry)
    requires UniqueIds(entries) && 0 <= i < |entries| && e.id == entries[i].id
    ensures UniqueIds(entries[i := e])
  {
  }

  /** Deleting the found entry: the list shrinks by one, keeps the order of the
      rest, and, ids being unique, no entry with that id is left while every
      other entry stays. */
  lemma {:induction false} SpliceRemovesEntry(entries: seq<Entry>, id: Id)
    requires UniqueIds(entries) && HasId(entries, id)
    ensures var i := FindIndex(entries, id);
            var r := entries[..i] + entries[i + 1..];
            && |r| == |entries| - 1
            && (forall j :: 0 <= j < i ==> r[j] == entries[j])
            && (forall j :: i <= j < |r| ==> r[j] == entries[j + 1])
            && UniqueIds(r)
            && !HasId(r, id)
            && (forall e :: e in r <==> e in entries && e.id != id)
  {
    SpliceAt(entries, FindIndex(entries, id));
  }

  /** Cutting out position `i` of a list with unique ids. */
  lemma SpliceAt(entries: seq<Entry>, i: int)
    requires UniqueIds(entries) && 0 <= i < |entries|
    ensures var r := entries[..i] + entries[i + 1..];
            && |r| == |entries| - 1
            && (forall j :: 0 <= j < i ==> r[j] == entries[j])
            && (forall j :: i <= j < |r| ==> r[j] == entries[j + 1])
            && UniqueIds(r)
            && !HasId(r, entries[i].id)
            && (forall e :: e in r <==> e in entries && e.id != entries[i].id)
  {
    var r := entries[..i] + entries[i + 1..];
    assert forall j :: 0 <= j < |r| ==> r[j] == entries[if j < i then j else j + 1];
    SpliceKeepsOthers(entries, i);
  }

  /** Cutting out the only entry with its id keeps exactly the entries with
      a different id. */
  lemma SpliceKeepsOthers(entries: seq<Entry>, i: int)
    requires UniqueIds(entries) && 0 <= i < |entries|
    ensures forall e :: e in entries[..i] + entries[i + 1..] <==> e in entries && e.id != entries[i].id
  {
    var r := entries[..i] + entries[i + 1..];
    forall e | e in r ensures e in entries && e.id != entries[i].id {
      var k :| 0 <= k < |r| && r[k] == e;
      assert r[k] == entries[if k < i then k else k + 1];
    }
    forall e | e in entries && e.id != entries[i].id ensures e in r {
      var k :| 0 <= k < |entries| && entries[k] == e;
      assert k != i;
      assert r[if k < i then k else k - 1] == e;
    }
  }

  /** Every entry of a list holds only fields of its kind's whitelist, each
      with a truthy value. */
  predicate EntriesWhitelisted(entries: seq<Entry>, kind: ListKind) {
    forall e :: e in entries ==> Whitelisted(e.fields, Keys(kind))
  }

  /** Merging built fields over a whitelisted entry leaves it whitelisted. */
  lemma MergedWhitelisted(e: Entry, body: Body, kind: ListKind)
    requires Whitelisted(e.fields, Keys(kind))
    requires Build(body, Keys(kind), Rule(kind)).Some?
    ensures Whitelisted(Merged(e, Build(body, Keys(kind), Rule(kind)).value).fields, Keys(kind))
  {
    BuiltWhitelisted(body, Keys(kind), Rule(kind));
  }

  /** An update never clears a field: every old field survives, and one the
      loop did not write (unlisted, absent or falsy) keeps its old value. */
  lemma UpdateNeverClears(e: Entry, body: Body, kind: ListKind, k: string)
    requires Build(body, Keys(kind), Rule(kind)).Some?
    requires k in e.fields
    ensures var r := Merged(e, Build(body, Keys(kind), Rule(kind)).value);
            && k in r.fields
            && (!(k in Keys(kind) && Writes(body, Rule(kind), k)) ==> r.fields[k] == e.fields[k])
  {
  }

  /** A profile document as the handlers load it. */
  class Profile {
    const user: Id
    /** company, website, location, bio, status, githubprofile, skills */
    var info: map<string, Value>
    var socials: map<string, Value>
    var experience: seq<Entry>
    var education: seq<Entry>

    ghost predicate Valid()
      reads this
    {
      && UniqueIds(experience) && UniqueIds(education)
      && EntriesWhitelisted(experience, Experience) && EntriesWhitelisted(education, Education)
      && Whitelisted(info, ProfileKeys) && Whitelisted(socials, SocialKeys)
    }

    /** `new Profile(profileFields)`. */
    constructor (user: Id, info: map<string, Value>, socials: map<string, Value>)
      requires Whitelisted(info, ProfileKeys) && Whitelisted(socials, SocialKeys)
      ensures this.user == user && this.info == info && this.socials == socials
      ensures experience == [] && education == [] && Valid()
    {
      this.user := user;
      this.info := info;
      this.socials := socials;
      experience := [];
      education := [];
    }

    function Entries(kind: ListKind): seq<Entry>
      reads this
    {
      if kind == Experience then experience else education
    }

    /** `list.unshift(e)`. */
    method Unshift(kind: ListKind, e: Entry)
      requires Valid() && !HasId(Entries(kind), e.id) && Whitelisted(e.fields, Keys(kind))
      modifies this
      ensures Valid()
      ensures Entries(kind) == [e] + old(Entries(kind))
      ensures Entries(kind.Other()) == old(Entries(kind.Other()))
      ensures info == old(info) && socials == old(socials)
    {
      UnshiftKeepsIdsUnique(Entries(kind), e);
      if kind == Experience {
        experience := [e] + experience;
      } else {
        education := [e] + education;
      }
    }

    /** `list[i] = e` with `e` keeping the id of the entry it replaces. */
    method Assign(kind: ListKind, i: int, e: Entry)
      requires Valid() && 0 <= i < |Entries(kind)| && e.id == Entries(kind)[i].id
      requires Whitelisted(e.fields, Keys(kind))
      modifies this
      ensures Valid()
      ensures Entries(kind) == old(Entries(kind))[i := e]
      ensures Entries(kind.Other()) == old(Entries(kind.Other()))
      ensures info == old(info) && socials == old(socials)
    {
      SameIdKeepsIdsUnique(Entries(kind), i, e);
      if kind == Experience {
        experience := experience[i := e];
      } else {
        education := education[i := e];
      }
    }

    /** `list.splice(i, 1)`. */
    method Splice(kind: ListKind, i: int)
      requires Valid() && 0 <= i < |Entries(kind)|
      modifies this
      ensures Valid()
      ensures Entries(kind) == old(Entries(kind))[..i] + old(Entries(kind))[i + 1..]
      ensures Entries(kind.Other()) == old(Entries(kind.Other()))
      ensures info == old(info) && socials == old(socials)
    {
      SpliceAt(Entries(kind), i);
      if kind == Experience {
        experience := experience[..i] + experience[i + 1..];
      } else {
        education := education[..i] + education[i + 1..];
      }
    }

    /** `$set: profileFields`: the built fields overwrite, the others stay;
        `socials` is replaced as a whole. */
    method Set(fields: map<string, Value>, socials: map<string, Value>)
      requires Valid() && Whitelisted(fields, ProfileKeys) && Whitelisted(socials, SocialKeys)
      modifies this
      ensures Valid()
      ensures info == old(info) + fields && this.socials == socials
      ensures experience == old(experience) && education == old(education)
    {
      info := info + fields;
      this.socials := socials;
    }
  }

  /** The profile collection, one profile per user. */
  class ProfileStore {
    var profiles: map<Id, Profile>

    ghost predicate Valid()
      reads this, profiles.Values
    {
      forall u :: u in profiles ==> profiles[u].user == u && profiles[u].Valid()
    }

    constructor ()
      ensures profiles == map[] && Valid()
    {
      profiles := map[];
    }

    /** The document `Profile.findOne({ user: uid })` loads, if any. */
    function Owned(uid: Id): set<Profile>
      reads this
    {
      if uid in profiles then {profiles[uid]} else {}
    }

    /** `POST /`: create the caller's profile or `$set` the built fields
        over it. */
    method Upsert(uid: Id, body: Body) returns (out: Outcome)
      requires Valid()
      modifies this, Owned(uid)
      ensures Valid()
      ensures out == if !Validates(body, ProfileRequired) then ValidationFailed
                     else if Build(body, ProfileKeys, SplitIfGiven("skills")).None? then UncaughtTypeError
                     else Ok
      ensures out != Ok ==> profiles == old(profiles) && (uid in profiles ==> unchanged(profiles[uid]))
      ensures out == Ok && uid in old(profiles) ==>
                profiles == old(profiles) &&
                var p := profiles[uid];
                && p.info == old(p.info) + Build(body, ProfileKeys, SplitIfGiven("skills")).value
                && p.socials == Pick(body, SocialKeys)
                && p.experience == old(p.experience) && p.education == old(p.education)
      ensures out == Ok && uid !in old(profiles) ==>
                uid in profiles && fresh(profiles[uid]) &&
                profiles == old(profiles)[uid := profiles[uid]] &&
                var p := profiles[uid];
                && p.info == Build(body, ProfileKeys, SplitIfGiven("skills")).value
                && p.socials == Pick(body, SocialKeys)
                && p.experience == [] && p.education == []
    {
      if !Validates(body, ProfileRequired) {
        return ValidationFailed;
      }
      var fields := BuildFields(body, ProfileKeys, SplitIfGiven("skills"));
      if fields.None? {
        return UncaughtTypeError;
      }
      var socials := BuildFields(body, SocialKeys, NoSplit);
      assert socials == Some(Pick(body, SocialKeys));
      BuiltWhitelisted(body, ProfileKeys, SplitIfGiven("skills"));
      BuiltWhitelisted(body, SocialKeys, NoSplit);
      if uid in profiles {
        profiles[uid].Set(fields.value, socials.value);
      } else {
        var p := new Profile(uid, fields.value, socials.value);
        profiles := profiles[uid := p];
      }
      out := Ok;
    }

    /** `POST /experience`, `POST /education`: insert the built entry, under
        the new id, at the front of the list. */
    method AddEntry(kind: ListKind, uid: Id, body: Body, id: Id) returns (out: Outcome)
      requires Valid()
      requires uid in profiles ==> !HasId(profiles[uid].Entries(kind), id)
      modifies Owned(uid)
      ensures Valid()
      ensures out == if !Validates(body, Required(kind)) then ValidationFailed
                     else if Build(body, Keys(kind), Rule(kind)).None? then UncaughtTypeError
                     else if uid !in profiles then ProfileNotFound
                     else Ok
      ensures out != Ok && uid in profiles ==> unchanged(profiles[uid])
      ensures out == Ok ==>
                var p := profiles[uid];
                && p.Entries(kind) == [Entry(id, Build(body, Keys(kind), Rule(kind)).value)] + old(p.Entries(kind))
                && p.Entries(kind.Other()) == old(p.Entries(kind.Other()))
                && p.info == old(p.info) && p.socials == old(p.socials)
    {
      if !Validates(body, Required(kind)) {
        return ValidationFailed;
      }
      var fields := BuildFields(body, Keys(kind), Rule(kind));
      if fields.None? {
        return UncaughtTypeError;
      }
      if uid !in profiles {
        return ProfileNotFound;
      }
      BuiltWhitelisted(body, Keys(kind), Rule(kind));
      profiles[uid].Unshift(kind, Entry(id, fields.value));
      out := Ok;
    }

    /** `PUT /experience/:exp_id`, `PUT /education/:edu_id`: merge the built
        fields over the first entry with that id. */
    method UpdateEntry(kind: ListKind, uid: Id, entryId: Id, body: Body) returns (out: Outcome)
      requires Valid()
      modifies Owned(uid)
      ensures Valid()
      ensures out == if !Validates(body, Required(kind)) then ValidationFailed
                     else if Build(body, Keys(kind), Rule(kind)).None? then UncaughtTypeError
                     else if uid !in profiles then ProfileNotFound
                     else if FindIndex(old(profiles[uid].Entries(kind)), entryId) < 0 then EntryNotFound
                     else Ok
      ensures out != Ok && uid in profiles ==> unchanged(profiles[uid])
      ensures out == Ok ==>
                var p := profiles[uid];
                var i := FindIndex(old(p.Entries(kind)), entryId);
                && 0 <= i
                && p.Entries(kind) ==
                   old(p.Entries(kind))[i := Merged(old(p.Entries(kind))[i], Build(body, Keys(kind), Rule(kind)).value)]
                && p.Entries(kind)[i].id == entryId
                && p.Entries(kind.Other()) == old(p.Entries(kind.Other()))
                && p.info == old(p.info) && p.socials == old(p.socials)
    {
      if !Validates(body, Required(kind)) {
        return ValidationFailed;
      }
      var fields := BuildFields(body, Keys(kind), Rule(kind));
      if fields.None? {
        return UncaughtTypeError;
      }
      if uid !in profiles {
        return ProfileNotFound;
      }
      var p := profiles[uid];
      var i := FindIndex(p.Entries(kind), entryId);
      if i == -1 {
        return EntryNotFound;
      }
      assert p.Entries(kind)[i] in p.Entries(kind);
      MergedWhitelisted(p.Entries(kind)[i], body, kind);
      p.Assign(kind, i, Merged(p.Entries(kind)[i], fields.value));
      out := Ok;
    }

    /** `DELETE /experience/:exp_id`, `DELETE /education/:edu_id`: remove the
        first entry with that id. */
    method DeleteEntry(kind: ListKind, uid: Id, entryId: Id) returns (out: Outcome)
      requires Valid()
      modifies Owned(uid)
      ensures Valid()
      ensures out == if uid !in profiles then ProfileNotFound
                     else if FindIndex(old(profiles[uid].Entries(kind)), entryId) < 0 then EntryNotFound
                     else Ok
      ensures out != Ok && uid in profiles ==> unchanged(profiles[uid])
      ensures out == Ok ==>
                var p := profiles[uid];
                var i := FindIndex(old(p.Entries(kind)), entryId);
                && 0 <= i
                && p.Entries(kind) == old(p.Entries(kind))[..i] + old(p.Entries(kind))[i + 1..]
                && !HasId(p.Entries(kind), entryId)
                && p.Entries(kind.Other()) == old(p.Entries(kind.Other()))
                && p.info == old(p.info) && p.socials == old(p.socials)
    {
      if uid !in profiles {
        return ProfileNotFound;
      }
      var p := profiles[uid];
      var i := FindIndex(p.Entries(kind), entryId);
      if i == -1 {
        return EntryNotFound;
      }
      SpliceRemovesEntry(p.Entries(kind), entryId);
      p.Splice(kind, i);
      out := Ok;
    }
  }

  /** A store in which `uid` has just created a profile, so its experience
      list is empty. */
  method StartProfile(uid: Id) returns (store: ProfileStore)
    ensures fresh(store) && fresh(store.profiles.Values) && store.Valid()
    ensures uid in store.profiles && fresh(store.profiles[uid]) && store.profiles[uid].experience == []
  {
    store := new ProfileStore();
    var profile := map["status" := Str("Developer"), "skills" := Str("dafny, js")];
    assert Validates(profile, ProfileRequired);
    ProfileSkillsSplitWhenGiven(profile);
    var created := store.Upsert(uid, profile);
    assert created == Ok;
  }

  /** Entries B, A, then N are added to an empty experience list. */
  method AddThree(store: ProfileStore, uid: Id) returns (f: map<string, Value>)
    requires store.Valid() && uid in store.profiles && store.profiles[uid].experience == []
    modifies store.profiles[uid]
    ensures store.Valid() && uid in store.profiles
    ensures store.profiles[uid].experience == [Entry("n", f), Entry("a", f), Entry("b", f)]
  {
    var job := map["title" := Str("Engineer"), "company" := Str("Acme"), "startdate" := Str("2020-01-01")];
    assert Validates(job, Required(Experience));
    f := Pick(job, ExperienceKeys);
    assert Build(job, Keys(Experience), Rule(Experience)) == Some(f);
    var o1 := store.AddEntry(Experience, uid, job, "b");
    assert store.profiles[uid].experience == [Entry("b", f)];
    var o2 := store.AddEntry(Experience, uid, job, "a");
    assert store.profiles[uid].experience == [Entry("a", f), Entry("b", f)];
    var o3 := store.AddEntry(Experience, uid, job, "n");
  }

  /** The ordering scenario: entries B, A, then N are added, so the list reads
      N, A, B (newest first); deleting B leaves N, A. */
  method OrderingScenario(uid: Id) returns (ids: seq<Id>)
    ensures ids == ["n", "a"]
  {
    var store := StartProfile(uid);
    var f := AddThree(store, uid);
    var list := store.profiles[uid].experience;
    FindIndexUnique(list, "b", 2);
    var o4 := store.DeleteEntry(Experience, uid, "b");
    assert store.profiles[uid].experience == [Entry("n", f), Entry("a", f)];
    list := store.profiles[uid].experience;
    ids := [list[0].id, list[1].id];
  }
}

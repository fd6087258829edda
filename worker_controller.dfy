/** The profile lists a worker maintains in controllers/workerController.js:
    skills (one per category), service areas, availability and rates. Every
    handler acts on the session user's own record. */
module WorkerController {
  import opened Common
  import opened UserModel
  import opened Store
  import opened Guards
  import opened Seqs
  import Text

  // ------------------------------------------------------------------ skills

  predicate HasCategory(skills: seq<Skill>, category: string)
  {
    exists i :: 0 <= i < |skills| && skills[i].category == category
  }

  /** The invariant the add handlers are written to keep: no two skills
      share a category. */
  predicate UniqueCategories(skills: seq<Skill>)
  {
    forall i, j :: 0 <= i < j < |skills| ==> skills[i].category != skills[j].category
  }

  /** The skill an add pushes: `subcategory || ''`, `parseInt(experience) || 0`. */
  function NewSkill(category: string, subcategory: Option<string>, experience: Option<string>): (sk: Skill)
    ensures sk.category == category
    ensures sk.subcategory == Some(if Truthy(subcategory) then subcategory.value else "")
    ensures experience.None? ==> sk.experience == 0
  {
    Skill(category, Some(if Truthy(subcategory) then subcategory.value else ""), Text.ParseIntOrZero(experience))
  }

  /** `addSkill` and `addSkills` (the same logic, answering with a redirect
      or a page): 400 without a category; 500 when the session user is gone
      (`worker.skills` of null); 400 when the category is already listed;
      500 when the save's validation refuses the stored availability;
      otherwise exactly one skill is appended and saved. */
  method AddSkill(db: Database, actor: SessionUser, category: Option<string>,
                  subcategory: Option<string>, experience: Option<string>) returns (resp: Response)
    requires db.Valid()
    modifies db
    ensures db.Valid()
    ensures !Truthy(category) ==> resp == BadRequest && db.Snapshot() == old(db.Snapshot())
    ensures Truthy(category) && actor.id !in old(db.users) ==> resp == ServerError && db.Snapshot() == old(db.Snapshot())
    ensures Truthy(category) && actor.id in old(db.users) ==>
      var u := old(db.users)[actor.id];
      if HasCategory(u.skills, category.value) then resp == BadRequest && db.Snapshot() == old(db.Snapshot())
      else if !AvailabilityValid(u) then resp == ServerError && db.Snapshot() == old(db.Snapshot())
      else resp == Ok && db.Snapshot() == old(db.Snapshot()).(users := old(db.users)[actor.id :=
             u.(skills := u.skills + [NewSkill(category.value, subcategory, experience)])])
  {
    if !Truthy(category) {
      return BadRequest;
    }
    if actor.id !in db.users {
      return ServerError;
    }
    var worker := db.users[actor.id];
    var existing := FindSkill(worker.skills, category.value);
    if existing.Some? {
      return BadRequest;
    }
    if !AvailabilityValid(worker) {
      return ServerError;
    }
    worker := worker.(skills := worker.skills + [NewSkill(category.value, subcategory, experience)]);
    db.SaveUser(worker);
    return Ok;
  }

  /** `skills.find(skill => skill.category === category)`, as an index. */
  method FindSkill(skills: seq<Skill>, category: string) returns (found: Option<nat>)
    ensures found.None? <==> !HasCategory(skills, category)
    ensures found.Some? ==> found.value < |skills| && skills[found.value].category == category
    ensures found.Some? ==> forall j :: 0 <= j < found.value ==> skills[j].category != category
  {
    var i := 0;
    while i < |skills|
      invariant 0 <= i <= |skills|
      invariant forall j :: 0 <= j < i ==> skills[j].category != category
    {
      if skills[i].category == category {
        return Some(i);
      }
      i := i + 1;
    }
    return None;
  }

  /** An add keeps categories unique, since it refuses a category already listed. */
  lemma AddSkillKeepsCategoriesUnique(skills: seq<Skill>, sk: Skill)
    requires UniqueCategories(skills) && !HasCategory(skills, sk.category)
    ensures UniqueCategories(skills + [sk])
  {
    var r := skills + [sk];
    forall i, j | 0 <= i < j < |r|
      ensures r[i].category != r[j].category
    {
      assert r[i] == skills[i];
      if j < |skills| {
        assert r[j] == skills[j];
      }
    }
  }

  /** The first skill with a category, as the positional `skills.$` picks it. */
  function IndexOfCategory(skills: seq<Skill>, category: string): Option<nat>
  {
    FirstIndex(skills, (s: Skill) => s.category == category)
  }

  /** `$set` through `skills.$`: the first skill with the category gets the
      new subcategory and experience; no such skill, no change. */
  function UpdateFirstSkill(skills: seq<Skill>, category: string, subcategory: string, experience: int): (r: seq<Skill>)
    ensures |r| == |skills|
    ensures forall i :: 0 <= i < |r| ==> r[i].category == skills[i].category
  {
    match IndexOfCategory(skills, category)
    case None => skills
    case Some(k) => skills[k := skills[k].(subcategory := Some(subcategory), experience := experience)]
  }

  /** With unique categories the first match is the only one: every skill
      with the category is updated and every other skill is left alone. */
  lemma UpdateSkillReachesTheOnlyMatch(skills: seq<Skill>, category: string, subcategory: string,
                                       experience: int, i: nat)
    requires UniqueCategories(skills) && i < |skills|
    ensures var r := UpdateFirstSkill(skills, category, subcategory, experience);
      && UniqueCategories(r)
      && (skills[i].category == category ==> r[i] == skills[i].(subcategory := Some(subcategory), experience := experience))
      && (skills[i].category != category ==> r[i] == skills[i])
  {
    var k := IndexOfCategory(skills, category);
    if skills[i].category == category {
      assert k.Some? && k.value == i;
    }
  }

  /** `updateSkill`: 400 without a category; otherwise the `updateOne`
      matching the user and the category, which changes nothing when
      either is missing, and success. */
  method UpdateSkill(db: Database, actor: SessionUser, category: Option<string>,
                     subcategory: Option<string>, experience: Option<string>) returns (resp: Response)
    requires db.Valid()
    modifies db
    ensures db.Valid()
    ensures resp == (if Truthy(category) then Ok else BadRequest)
    ensures !Truthy(category) || actor.id !in old(db.users) ==> db.Snapshot() == old(db.Snapshot())
    ensures Truthy(category) && actor.id in old(db.users) ==>
      var u := old(db.users)[actor.id];
      var sub := if Truthy(subcategory) then subcategory.value else "";
      db.Snapshot() == old(db.Snapshot()).(users := old(db.users)[actor.id :=
        u.(skills := UpdateFirstSkill(u.skills, category.value, sub, Text.ParseIntOrZero(experience)))])
  {
    if !Truthy(category) {
      return BadRequest;
    }
    if actor.id in db.users {
      var worker := db.users[actor.id];
      var sub := if Truthy(subcategory) then subcategory.value else "";
      worker := worker.(skills := UpdateFirstSkill(worker.skills, category.value, sub, Text.ParseIntOrZero(experience)));
      db.SaveUser(worker);
    }
    return Ok;
  }

  /** `$pull: { skills: { category } }`. */
  function WithoutCategory(skills: seq<Skill>, category: string): (r: seq<Skill>)
    ensures !HasCategory(r, category)
    ensures forall i :: 0 <= i < |skills| && skills[i].category != category ==> skills[i] in r
    ensures forall i :: 0 <= i < |r| ==> r[i] in skills
  {
    Filter(skills, (s: Skill) => s.category != category)
  }

  /** Deleting keeps the other skills in their order, and keeps categories unique. */
  lemma DeleteSkillKeepsOrder(skills: seq<Skill>, category: string)
    ensures IsSubsequence(WithoutCategory(skills, category), skills)
    ensures UniqueCategories(skills) ==> UniqueCategories(WithoutCategory(skills, category))
  {
    FilterIsSubsequence(skills, (s: Skill) => s.category != category);
    if UniqueCategories(skills) {
      SubsequenceKeepsUnique(WithoutCategory(skills, category), skills);
    }
  }

  lemma {:induction false} SubsequenceKeepsUnique(a: seq<Skill>, b: seq<Skill>)
    requires IsSubsequence(a, b) && UniqueCategories(b)
    ensures UniqueCategories(a)
    decreases |b|
  {
    if a != [] {
      if a[0] == b[0] && IsSubsequence(a[1..], b[1..]) {
        SubsequenceKeepsUnique(a[1..], b[1..]);
        forall j | 0 < j < |a|
          ensures a[0].category != a[j].category
        {
          SubsequenceMember(a[1..], b[1..], j - 1);
          var k :| 0 <= k < |b[1..]| && b[1..][k] == a[j];
          assert b[k + 1] == a[j];
        }
      } else {
        SubsequenceKeepsUnique(a, b[1..]);
      }
    }
  }

  lemma {:induction false} SubsequenceMember(a: seq<Skill>, b: seq<Skill>, i: nat)
    requires IsSubsequence(a, b) && i < |a|
    ensures exists k :: 0 <= k < |b| && b[k] == a[i]
    decreases |b|
  {
    if a[0] == b[0] && IsSubsequence(a[1..], b[1..]) {
      if i == 0 {
        assert b[0] == a[0];
      } else {
        SubsequenceMember(a[1..], b[1..], i - 1);
        var k :| 0 <= k < |b[1..]| && b[1..][k] == a[1..][i - 1];
        assert b[k + 1] == a[i];
      }
    } else {
      SubsequenceMember(a, b[1..], i);
      var k :| 0 <= k < |b[1..]| && b[1..][k] == a[i];
      assert b[k + 1] == a[i];
    }
  }

  /** `deleteSkill`: 400 without a category; otherwise every skill with it
      is removed (a missing user: no change) and success. */
  method DeleteSkill(db: Database, actor: SessionUser, category: Option<string>) returns (resp: Response)
    requires db.Valid()
    modifies db
    ensures db.Valid()
    ensures resp == (if Truthy(category) then Ok else BadRequest)
    ensures !Truthy(category) || actor.id !in old(db.users) ==> db.Snapshot() == old(db.Snapshot())
    ensures Truthy(category) && actor.id in old(db.users) ==>
      var u := old(db.users)[actor.id];
      db.Snapshot() == old(db.Snapshot()).(users := old(db.users)[actor.id :=
        u.(skills := WithoutCategory(u.skills, category.value))])
  {
    if !Truthy(category) {
      return BadRequest;
    }
    if actor.id in db.users {
      var worker := db.users[actor.id];
      worker := worker.(skills := WithoutCategory(worker.skills, category.value));
      db.SaveUser(worker);
    }
    return Ok;
  }

  // ----------------------------------------------------------- service areas

  /** `addServiceArea`: 400 without a city; otherwise one area is pushed
      (a missing user: no change) and success. */
  method AddServiceArea(db: Database, actor: SessionUser, city: Option<string>, radius: Option<string>)
    returns (resp: Response)
    requires db.Valid()
    modifies db
    ensures db.Valid()
    ensures resp == (if Truthy(city) then Ok else BadRequest)
    ensures !Truthy(city) || actor.id !in old(db.users) ==> db.Snapshot() == old(db.Snapshot())
    ensures Truthy(city) && actor.id in old(db.users) ==>
      var u := old(db.users)[actor.id];
      db.Snapshot() == old(db.Snapshot()).(users := old(db.users)[actor.id :=
        u.(serviceAreas := u.serviceAreas + [ServiceArea(city.value, ServiceRadius(radius))])])
  {
    if !Truthy(city) {
      return BadRequest;
    }
    if actor.id in db.users {
      var worker := db.users[actor.id];
      worker := worker.(serviceAreas := worker.serviceAreas + [ServiceArea(city.value, ServiceRadius(radius))]);
      db.SaveUser(worker);
    }
    return Ok;
  }

  /** `$pull: { serviceAreas: { city } }`. */
  function WithoutCity(areas: seq<ServiceArea>, city: string): (r: seq<ServiceArea>)
    ensures forall i :: 0 <= i < |r| ==> r[i].city != city && r[i] in areas
    ensures forall i :: 0 <= i < |areas| && areas[i].city != city ==> areas[i] in r
  {
    Filter(areas, (a: ServiceArea) => a.city != city)
  }

  /** `deleteServiceArea`: 400 without a city; otherwise every area with it
      is removed (a missing user: no change) and success. */
  method DeleteServiceArea(db: Database, actor: SessionUser, city: Option<string>) returns (resp: Response)
    requires db.Valid()
    modifies db
    ensures db.Valid()
    ensures resp == (if Truthy(city) then Ok else BadRequest)
    ensures !Truthy(city) || actor.id !in old(db.users) ==> db.Snapshot() == old(db.Snapshot())
    ensures Truthy(city) && actor.id in old(db.users) ==>
      var u := old(db.users)[actor.id];
      db.Snapshot() == old(db.Snapshot()).(users := old(db.users)[actor.id :=
        u.(serviceAreas := WithoutCity(u.serviceAreas, city.value))])
  {
    if !Truthy(city) {
      return BadRequest;
    }
    if actor.id in db.users {
      var worker := db.users[actor.id];
      worker := worker.(serviceAreas := WithoutCity(worker.serviceAreas, city.value));
      db.SaveUser(worker);
    }
    return Ok;
  }

  /** Adding an area and then deleting its city leaves no area with that city,
      and the areas with other cities as they were, in order. */
  lemma AddThenDeleteArea(areas: seq<ServiceArea>, city: string, km: int)
    ensures WithoutCity(areas + [ServiceArea(city, km)], city) == WithoutCity(areas, city)
  {
    var p := (a: ServiceArea) => a.city != city;
    FilterAppendRejected(areas, ServiceArea(city, km), p);
  }

  lemma {:induction false} FilterAppendRejected<T>(s: seq<T>, x: T, p: T -> bool)
    requires !p(x)
    ensures Filter(s + [x], p) == Filter(s, p)
    decreases |s|
  {
    if s == [] {
      assert Filter([x], p) == [] + Filter([x][1..], p);
    } else {
      assert (s + [x])[1..] == s[1..] + [x];
      FilterAppendRejected(s[1..], x, p);
    }
  }

  // ----------------------------------------------------- availability, rates

  /** `updateAvailability`: 400 without a status; otherwise the status is
      stored as given. `updateOne` runs no validators, so a value outside
      the availability enumeration is stored too. */
  method UpdateAvailability(db: Database, actor: SessionUser, status: Option<string>) returns (resp: Response)
    requires db.Valid()
    modifies db
    ensures db.Valid()
    ensures resp == (if Truthy(status) then Ok else BadRequest)
    ensures !Truthy(status) || actor.id !in old(db.users) ==> db.Snapshot() == old(db.Snapshot())
    ensures Truthy(status) && actor.id in old(db.users) ==>
      db.Snapshot() == old(db.Snapshot()).(users := old(db.users)[actor.id :=
        old(db.users)[actor.id].(availability := status.value)])
  {
    if !Truthy(status) {
      return BadRequest;
    }
    if actor.id in db.users {
      var worker := db.users[actor.id];
      db.SaveUser(worker.(availability := status.value));
    }
    return Ok;
  }

  /** `updateRates`: the whole rates object is replaced by one holding only
      the supplied values (`None`: absent or empty). */
  method UpdateRates(db: Database, actor: SessionUser, hourly: Option<Cents>, daily: Option<Cents>)
    returns (resp: Response)
    requires db.Valid()
    modifies db
    ensures db.Valid()
    ensures resp == Ok
    ensures actor.id !in old(db.users) ==> db.Snapshot() == old(db.Snapshot())
    ensures actor.id in old(db.users) ==>
      db.Snapshot() == old(db.Snapshot()).(users := old(db.users)[actor.id :=
        old(db.users)[actor.id].(rates := Rates(hourly, daily))])
  {
    if actor.id in db.users {
      var worker := db.users[actor.id];
      db.SaveUser(worker.(rates := Rates(hourly, daily)));
    }
    return Ok;
  }

  /** The rates `updateProfile` writes: replaced as a whole when either value
      is supplied (`None`: absent or empty), kept otherwise. */
  function ProfileRates(current: Rates, hourly: Option<Cents>, daily: Option<Cents>): (r: Rates)
    ensures hourly.Some? || daily.Some? ==> r.hourly == hourly && r.daily == daily
    ensures hourly.None? && daily.None? ==> r == current
  {
    if hourly.Some? || daily.Some? then Rates(hourly, daily) else current
  }

  /** The two rate handlers differ only on an empty form: `updateProfile`
      keeps the rates, `updateRates` clears both; and supplying one value
      clears the other in both. */
  lemma RateHandlersCompared(current: Rates, hourly: Option<Cents>, daily: Option<Cents>)
    ensures ProfileRates(current, hourly, daily) == Rates(hourly, daily) <==>
      hourly.Some? || daily.Some? || current == NoRates
    ensures hourly.Some? && daily.None? ==> ProfileRates(current, hourly, daily).daily.None?
  {
  }
}

/** Worker discovery in controllers/clientController.js: the search page with
    its conjunctive filters and pagination, and the marker list of the map. */
module ClientController {
  import opened Common
  import opened Constants
  import opened UserModel
  import opened Store
  import opened Seqs
  import Text

  /** The users in the collection's natural order, as `User.find` returns them. */
  function InOrder(users: map<Id, User>, order: seq<Id>): (r: seq<User>)
    requires forall i :: 0 <= i < |order| ==> order[i] in users
    ensures |r| == |order|
    ensures forall i :: 0 <= i < |order| ==> r[i] == users[order[i]]
  {
    if order == [] then [] else [users[order[0]]] + InOrder(users, order[1..])
  }

  // ------------------------------------------------------------ searchWorkers

  /** The query-string filters. A filter is `None` when absent or empty (the
      handler tests each for truthiness); rating is in hundredths and budget
      in cents, already parsed. */
  datatype SearchFilters = SearchFilters(
    category: Option<string>,
    location: Option<string>,
    rating: Option<int>,
    budget: Option<Cents>)

  /** The query document the handler assembles. */
  datatype Query = Query(
    role: Role,
    isActive: bool,
    skillCategory: Option<string>,   // 'skills.category'
    minRating: Option<int>,          // averageRating: { $gte }
    maxHourly: Option<Cents>,        // 'rates.hourly': { $lte }
    city: Option<string>)            // $or of the two city regexes

  predicate HasSkill(u: User, category: string)
  {
    exists k :: 0 <= k < |u.skills| && u.skills[k].category == category
  }

  /** `new RegExp(location, 'i')` on `address.city` or on any service area's
      city, with the pattern read as a literal substring: metacharacters in
      the location are not interpreted. */
  predicate ServesCity(u: User, location: string)
  {
    || (u.address.city.Some? && Text.ContainsIgnoreCase(u.address.city.value, location))
    || (exists k :: 0 <= k < |u.serviceAreas| && Text.ContainsIgnoreCase(u.serviceAreas[k].city, location))
  }

  /** What the store answers for a query: every condition present must hold.
      A range condition on a missing rate does not match. */
  predicate QueryMatches(q: Query, u: User)
  {
    && u.role == q.role
    && u.isActive == q.isActive
    && (q.skillCategory.Some? ==> HasSkill(u, q.skillCategory.value))
    && (q.minRating.Some? ==> u.averageRating >= q.minRating.value)
    && (q.maxHourly.Some? ==> u.rates.hourly.Some? && u.rates.hourly.value <= q.maxHourly.value)
    && (q.city.Some? ==> ServesCity(u, q.city.value))
  }

  /** The search the page promises: active workers only, and every filter
      given narrows the result further. */
  predicate SearchSpec(f: SearchFilters, u: User)
  {
    && u.role == Worker
    && u.isActive
    && (Truthy(f.category) ==> HasSkill(u, f.category.value))
    && (f.rating.Some? ==> u.averageRating >= f.rating.value)
    && (f.budget.Some? ==> u.rates.hourly.Some? && u.rates.hourly.value <= f.budget.value)
    && (Truthy(f.location) ==> ServesCity(u, f.location.value))
  }

  /** The handler's conditional assembly of the query. */
  method BuildSearchQuery(f: SearchFilters) returns (q: Query)
    ensures forall u :: QueryMatches(q, u) <==> SearchSpec(f, u)
  {
    q := Query(Worker, true, None, None, None, None);
    if Truthy(f.category) {
      q := q.(skillCategory := f.category);
    }
    if f.rating.Some? {
      q := q.(minRating := f.rating);
    }
    if f.budget.Some? {
      q := q.(maxHourly := f.budget);
    }
    if Truthy(f.location) {
      q := q.(city := f.location);
    }
  }

  /** Math.ceil(total / PageSize). */
  function PageCount(total: nat): (pages: nat)
    ensures pages * PageSize >= total
    ensures pages > 0 ==> (pages - 1) * PageSize < total
  {
    (total + PageSize - 1) / PageSize
  }

  /** The matches of a search, in natural order. */
  function SearchMatches(users: seq<User>, f: SearchFilters): (r: seq<User>)
    ensures forall i :: 0 <= i < |r| ==> SearchSpec(f, r[i]) && r[i] in users
    ensures forall i :: 0 <= i < |users| && SearchSpec(f, users[i]) ==> users[i] in r
  {
    Filter(users, u => SearchSpec(f, u))
  }

  /** `searchWorkers`: page defaults to 1; skip = (page-1)*10, limit 10,
      totalPages = ceil(total/10). `new RegExp(location, 'i')` is built
      first: `locationCompiles` says whether the engine accepts the location
      as a pattern, and a pattern it rejects throws, answered 500. A page
      below 1 then makes the skip negative, which the store refuses. */
  method SearchWorkers(db: Database, f: SearchFilters, locationCompiles: bool, page: Option<int>)
    returns (resp: Response, workers: seq<User>, currentPage: int, totalPages: nat)
    requires db.Valid()
    ensures var p := if page.Some? then page.value else 1;
      if (Truthy(f.location) && !locationCompiles) || p < 1 then resp == ServerError && workers == []
      else
        var matches := SearchMatches(InOrder(db.users, db.userOrder), f);
        && resp == Ok && currentPage == p
        && workers == Window(matches, (p - 1) * PageSize, PageSize)
        && totalPages == PageCount(|matches|)
  {
    var p := if page.Some? then page.value else 1;
    if Truthy(f.location) && !locationCompiles {
      return ServerError, [], p, 0;
    }
    var q := BuildSearchQuery(f);
    if p < 1 {
      return ServerError, [], p, 0;
    }
    var skip := (p - 1) * PageSize;
    var all := InOrder(db.users, db.userOrder);
    var matches := Filter(all, u => QueryMatches(q, u));
    FilterExtensional(all, u => QueryMatches(q, u), u => SearchSpec(f, u));
    workers := Window(matches, skip, PageSize);
    totalPages := PageCount(|matches|);
    return Ok, workers, p, totalPages;
  }

  /** Pages partition the matches: the match at position k is shown on
      page k/10 + 1, which is within the page count, and on no other page. */
  lemma PagesPartitionMatches(matches: seq<User>, k: nat, p: nat)
    requires k < |matches| && p >= 1
    ensures var w := Window(matches, (p - 1) * PageSize, PageSize);
      && k / PageSize + 1 <= PageCount(|matches|)
      && ((p - 1) * PageSize <= k < p * PageSize <==> p == k / PageSize + 1)
      && (p == k / PageSize + 1 ==> w[k % PageSize] == matches[k])
  {
    var pages := PageCount(|matches|);
    assert k / PageSize * PageSize <= k;
    if p == k / PageSize + 1 {
      var skip := (p - 1) * PageSize;
      assert skip == k / PageSize * PageSize;
      assert skip + k % PageSize == k;
    }
  }

  // --------------------------------------------------------- getWorkersForMap

  /** The rate a marker shows: `rates.hourly || 'N/A'`. */
  datatype RateLabel = HourlyRate(cents: Cents) | RateNotAvailable

  /** One entry of the map's JSON. */
  datatype MapMarker = MapMarker(
    id: Id,
    name: string,
    lat: Option<real>,
    lng: Option<real>,
    city: string,
    rating: int,
    rate: RateLabel,
    profileImage: string,
    serviceAreas: seq<ServiceArea>)

  const DefaultAvatar: string := "/images/default-avatar.png"
  const DefaultRadiusKm: real := 50.0
  const CandidateLimit: nat := 500
  const MarkerLimit: nat := 100

  /** JavaScript truthiness of an optional number: absent and 0 are falsy. */
  predicate TruthyNumber(x: Option<real>)
  {
    x.Some? && x.value != 0.0
  }

  /** The map query: active workers whose coordinates exist and are not null. */
  predicate MapCandidate(u: User)
  {
    u.role == Worker && u.isActive && u.address.latitude.Some? && u.address.longitude.Some?
  }

  /** The distance filter: both coordinates truthy and within the radius. */
  predicate WithinRadius(u: User, lat: real, lng: real, radius: real, dist: (real, real, real, real) -> real)
  {
    TruthyNumber(u.address.latitude) && TruthyNumber(u.address.longitude)
    && dist(lat, lng, u.address.latitude.value, u.address.longitude.value) <= radius
  }

  /** The projection of a worker onto a marker, with the handler's defaults. */
  function Marker(u: User): (m: MapMarker)
    ensures m.id == u.id && m.lat == u.address.latitude && m.lng == u.address.longitude
    ensures m.city == (if Truthy(u.address.city) then u.address.city.value else "N/A")
    ensures m.rating == u.averageRating
    ensures m.name == u.firstName + " " + u.lastName
    ensures m.rate.RateNotAvailable? <==> u.rates.hourly.None? || u.rates.hourly.value == 0
    ensures m.rate.HourlyRate? ==> m.rate == HourlyRate(u.rates.hourly.value)
    ensures m.profileImage == (if u.profileImage == "" then DefaultAvatar else u.profileImage)
    ensures m.serviceAreas == u.serviceAreas
  {
    MapMarker(u.id, u.firstName + " " + u.lastName, u.address.latitude, u.address.longitude,
              if Truthy(u.address.city) then u.address.city.value else "N/A",
              if u.averageRating != 0 then u.averageRating else 0,
              if u.rates.hourly.Some? && u.rates.hourly.value != 0 then HourlyRate(u.rates.hourly.value)
              else RateNotAvailable,
              if u.profileImage != "" then u.profileImage else DefaultAvatar,
              u.serviceAreas)
  }

  predicate Located(m: MapMarker)
  {
    TruthyNumber(m.lat) && TruthyNumber(m.lng)
  }

  /** The workers chosen before projection: with a centre, the first 500
      candidates filtered by distance and cut to 100; otherwise the first
      100 candidates. */
  function ChosenForMap(users: seq<User>, center: Option<(real, real)>, radius: real,
                        dist: (real, real, real, real) -> real): (r: seq<User>)
    ensures |r| <= MarkerLimit
    ensures forall i :: 0 <= i < |r| ==> MapCandidate(r[i])
    ensures center.Some? ==> forall i :: 0 <= i < |r| ==> WithinRadius(r[i], center.value.0, center.value.1, radius, dist)
  {
    var candidates := Filter(users, MapCandidate);
    if center.Some? then
      var near := Filter(Take(candidates, CandidateLimit),
                         u => WithinRadius(u, center.value.0, center.value.1, radius, dist));
      Take(near, MarkerLimit)
    else
      Take(candidates, MarkerLimit)
  }

  /** `getWorkersForMap`: the centre is given when both `lat` and `lng` are
      (non-empty); the radius defaults to 50 km; `dist` is the distance
      function of the map service. */
  function WorkersForMap(users: seq<User>, lat: Option<real>, lng: Option<real>, radius: Option<real>,
                         dist: (real, real, real, real) -> real): (r: seq<MapMarker>)
    ensures |r| <= MarkerLimit
    ensures forall i :: 0 <= i < |r| ==> Located(r[i])
    ensures lat.Some? && lng.Some? ==> forall i :: 0 <= i < |r| ==>
      r[i].lat.Some? && r[i].lng.Some? && dist(lat.value, lng.value, r[i].lat.value, r[i].lng.value) <= (if radius.Some? then radius.value else DefaultRadiusKm)
  {
    var center := if lat.Some? && lng.Some? then Some((lat.value, lng.value)) else None;
    var km := if radius.Some? then radius.value else DefaultRadiusKm;
    var chosen := ChosenForMap(users, center, km, dist);
    var markers := Map(chosen, Marker);
    Filter(markers, Located)
  }

  /** The map keeps the natural order: its markers are a subsequence of the
      projection of every user. */
  lemma {:induction false} WorkersForMapKeepsOrder(users: seq<User>, lat: Option<real>, lng: Option<real>,
                                                   radius: Option<real>, dist: (real, real, real, real) -> real)
    ensures IsSubsequence(WorkersForMap(users, lat, lng, radius, dist), Map(users, Marker))
  {
    var center := if lat.Some? && lng.Some? then Some((lat.value, lng.value)) else None;
    var km := if radius.Some? then radius.value else DefaultRadiusKm;
    var candidates := Filter(users, MapCandidate);
    FilterIsSubsequence(users, MapCandidate);
    var chosen := ChosenForMap(users, center, km, dist);
    if center.Some? {
      var first := Take(candidates, CandidateLimit);
      PrefixIsSubsequence(candidates, |first|);
      var p := u => WithinRadius(u, center.value.0, center.value.1, km, dist);
      var near := Filter(first, p);
      FilterIsSubsequence(first, p);
      PrefixIsSubsequence(near, |chosen|);
      SubsequenceTransitive(chosen, near, first);
      SubsequenceTransitive(chosen, first, candidates);
    } else {
      PrefixIsSubsequence(candidates, |chosen|);
    }
    SubsequenceTransitive(chosen, candidates, users);
    var markers := Map(chosen, Marker);
    MapKeepsSubsequence(chosen, users, Marker);
    FilterIsSubsequence(markers, Located);
    SubsequenceTransitive(Filter(markers, Located), markers, Map(users, Marker));
  }

  /** Every active worker with truthy coordinates among the first 100
      candidates appears on the map when no centre is given. */
  lemma NoCentreKeepsLocatedCandidates(users: seq<User>, radius: Option<real>,
                                       dist: (real, real, real, real) -> real, i: nat)
    requires i < |users| && MapCandidate(users[i])
    requires TruthyNumber(users[i].address.latitude) && TruthyNumber(users[i].address.longitude)
    requires users[i] in Take(Filter(users, MapCandidate), MarkerLimit)
    ensures Marker(users[i]) in WorkersForMap(users, None, None, radius, dist)
  {
    var chosen := Take(Filter(users, MapCandidate), MarkerLimit);
    var k :| 0 <= k < |chosen| && chosen[k] == users[i];
    var markers := Map(chosen, Marker);
    assert markers[k] == Marker(users[i]);
  }
}

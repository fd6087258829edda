/** The fields of the user record (models/User.js) that the engine reads or writes. */
module UserModel {
  import opened Common
  import opened Constants
  import Text

  datatype Address = Address(
    street: Option<string>,
    city: Option<string>,
    state: Option<string>,
    zipCode: Option<string>,
    latitude: Option<real>,
    longitude: Option<real>)

  const NoAddress: Address := Address(None, None, None, None, None, None)

  datatype Skill = Skill(category: string, subcategory: Option<string>, experience: int)

  /** A city a worker serves, with a radius in km. */
  datatype ServiceArea = ServiceArea(city: string, radius: int)

  /** Hourly and daily rates in cents; an unset rate is `None`. */
  datatype Rates = Rates(hourly: Option<Cents>, daily: Option<Cents>)

  const NoRates: Rates := Rates(None, None)

  datatype User = User(
    id: Id,
    email: string,
    password: string,
    role: Role,
    firstName: string,
    lastName: string,
    phone: Option<string>,
    address: Address,
    profileImage: string,
    isVerified: bool,
    isActive: bool,
    serviceAreas: seq<ServiceArea>,
    rates: Rates,
    availability: string,
    skills: seq<Skill>,
    verificationStatus: VerificationStatus,
    totalEarnings: Cents,
    averageRating: int,   // hundredths: 4.67 is 467
    emailVerificationToken: Option<string>,
    emailVerificationExpires: Option<Time>,
    passwordResetToken: Option<string>,
    passwordResetExpires: Option<Time>)

  /** The `trim` and `lowercase` setters on `email`. */
  function NormalizeEmail(email: string): (e: string)
    ensures |e| <= |email|
    ensures e == [] || (!Text.IsSpace(e[0]) && !Text.IsSpace(e[|e| - 1]))
    ensures forall i :: 0 <= i < |e| ==> !('A' <= e[i] <= 'Z')
    ensures e == [] <==> forall i :: 0 <= i < |email| ==> Text.IsSpace(email[i])
  {
    var t := Text.Trim(email);
    Text.LowerKeepsSpace(t);
    Text.Lower(t)
  }

  /** Normalising twice is normalising once: a stored email is its own normal form. */
  lemma NormalizeEmailIdempotent(email: string)
    ensures NormalizeEmail(NormalizeEmail(email)) == NormalizeEmail(email)
  {
    NormalFormIsFixed(NormalizeEmail(email));
  }

  /** A trimmed string without upper-case letters is its own normal form. */
  lemma NormalFormIsFixed(e: string)
    requires e == [] || (!Text.IsSpace(e[0]) && !Text.IsSpace(e[|e| - 1]))
    requires forall i :: 0 <= i < |e| ==> !('A' <= e[i] <= 'Z')
    ensures NormalizeEmail(e) == e
  {
    assert Text.Trim(e) == e by {
      Text.TrimOfTrimmed(e);
    }
    assert Text.Lower(e) == e by {
      Text.LowerOfLowerCase(e);
    }
  }

  /** The enum validator on `availability.status`. `save()` validates every
      path of the loaded document, not only the modified ones, so a record
      whose stored status lies outside the enumeration cannot be saved. */
  predicate AvailabilityValid(u: User)
  {
    u.availability in AvailabilityStatusNames
  }

  /** The schema's `minlength: 8` on the password, which counts UTF-16
      code units. */
  predicate PasswordLongEnough(password: string)
  {
    Text.Utf16Length(password) >= 8
  }

  /** A user as the schema creates it from the registration data: role and
      names as given, and the defaults isVerified false, isActive true,
      verification pending, availability "available", earnings and rating 0. */
  function NewUser(id: Id, email: string, password: string, role: Role,
                   firstName: string, lastName: string, phone: Option<string>,
                   address: Address, skills: seq<Skill>, serviceAreas: seq<ServiceArea>,
                   rates: Rates, token: string, tokenExpires: Time): (u: User)
    ensures u.id == id && u.role == role && u.email == NormalizeEmail(email)
    ensures u.firstName == Text.Trim(firstName) && u.lastName == Text.Trim(lastName)
    ensures u.phone == (if phone.Some? then Some(Text.Trim(phone.value)) else None)
    ensures AvailabilityValid(u)
    ensures u.skills == skills && u.serviceAreas == serviceAreas && u.rates == rates && u.address == address
    ensures !u.isVerified && u.isActive && u.verificationStatus == VerificationPending
    ensures u.availability == AvailabilityStatusName(Available)
    ensures u.totalEarnings == 0 && u.averageRating == 0 && u.profileImage == ""
    ensures u.emailVerificationToken == Some(token) && u.emailVerificationExpires == Some(tokenExpires)
    ensures u.passwordResetToken.None? && u.passwordResetExpires.None?
  {
    User(id, NormalizeEmail(email), password, role, Text.Trim(firstName), Text.Trim(lastName),
         if phone.Some? then Some(Text.Trim(phone.value)) else None, address, "", false, true, serviceAreas, rates, AvailabilityStatusName(Available),
         skills, VerificationPending, 0, 0, Some(token), Some(tokenExpires), None, None)
  }

  /** A service area's radius, `parseInt(radius) || 10`: a missing,
      unparsable or zero radius is 10 km. */
  function ServiceRadius(radius: Option<string>): (km: int)
    ensures km != 0
    ensures radius.None? ==> km == 10
  {
    var n := Text.ParseIntOrZero(radius);
    if n != 0 then n else 10
  }
}

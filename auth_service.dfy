/**
 * The pure parts of the authentication service: e-mail normalisation as
 * used by lookup and creation, the role guessed from an e-mail domain, and
 * the password check's guard against accounts without a password.
 */
module AuthService {
  import opened Common

  /** `email.toLowerCase().trim()`. */
  function NormalizeEmail(email: string): (r: string)
    ensures IsTrimmed(r)
    ensures r == ToLower(r)
  {
    TrimShape(ToLower(email));
    TrimToLower(email);
    ToLowerIdempotent(Trim(email));
    Trim(ToLower(email))
  }

  predicate EndsWith(s: string, suffix: string) {
    |suffix| <= |s| && s[|s| - |suffix|..] == suffix
  }

  const StudentDomain := "@mediaschool.me"
  const StaffDomain := "@mediaschool.eu"

  datatype EmailRole = Student | Staff | External

  /** `roleFromEmail`: the school's two domains, anything else is external. */
  function RoleFromEmail(email: string): (r: EmailRole)
    ensures r == Student <==> EndsWith(NormalizeEmail(email), StudentDomain)
    ensures r == Staff <==> !EndsWith(NormalizeEmail(email), StudentDomain) && EndsWith(NormalizeEmail(email), StaffDomain)
    ensures r == External <==>
      !EndsWith(NormalizeEmail(email), StudentDomain) && !EndsWith(NormalizeEmail(email), StaffDomain)
  {
    var e := NormalizeEmail(email);
    if EndsWith(e, StudentDomain) then Student
    else if EndsWith(e, StaffDomain) then Staff
    else External
  }

  /** Normalising twice changes nothing. */
  lemma NormalizeEmailIdempotent(email: string)
    ensures NormalizeEmail(NormalizeEmail(email)) == NormalizeEmail(email)
  {
    var e := NormalizeEmail(email);
    TrimOfTrimmed(e);
  }

  /** Surrounding white space does not change the normalised address. */
  lemma NormalizeIgnoresPadding(w1: string, email: string, w2: string)
    requires AllSpace(w1) && AllSpace(w2)
    ensures NormalizeEmail(w1 + email + w2) == NormalizeEmail(email)
  {
    ToLowerConcat(w1 + email, w2);
    ToLowerConcat(w1, email);
    LowerOfSpace(w1);
    LowerOfSpace(w2);
    TrimSurrounding(ToLower(w1), ToLower(email), ToLower(w2));
  }

  lemma LowerOfSpace(w: string)
    requires AllSpace(w)
    ensures ToLower(w) == w
  {
    assert forall i | 0 <= i < |w| :: ToLower(w)[i] == w[i];
  }

  /** Letter case does not change the normalised address. */
  lemma NormalizeIgnoresCase(a: string, b: string)
    requires ToLower(a) == ToLower(b)
    ensures NormalizeEmail(a) == NormalizeEmail(b)
  {
  }

  /** Hence the role does not depend on letter case or surrounding white space. */
  lemma RoleFromEmailInvariant(w1: string, a: string, b: string, w2: string)
    requires AllSpace(w1) && AllSpace(w2) && ToLower(a) == ToLower(b)
    ensures RoleFromEmail(w1 + a + w2) == RoleFromEmail(b)
  {
    NormalizeIgnoresPadding(w1, a, w2);
    NormalizeIgnoresCase(a, b);
  }

  /** Text without upper-case ASCII letters, which `toLowerCase` leaves alone. */
  predicate NoUpperCase(s: string) {
    forall i | 0 <= i < |s| :: !('A' <= s[i] <= 'Z')
  }

  lemma NoUpperCaseConcat(a: string, b: string)
    requires NoUpperCase(a) && NoUpperCase(b)
    ensures NoUpperCase(a + b)
  {
    forall i | 0 <= i < |a + b| ensures !('A' <= (a + b)[i] <= 'Z') {
      if i >= |a| {
        assert (a + b)[i] == b[i - |a|];
      }
    }
  }

  lemma DomainsAreLowerCase()
    ensures NoUpperCase(StudentDomain) && NoUpperCase(StaffDomain)
  {
  }

  /** An address already lower-case and trimmed is its own normal form. */
  lemma NormalFormFixed(e: string)
    requires NoUpperCase(e) && IsTrimmed(e)
    ensures NormalizeEmail(e) == e
  {
    assert forall i | 0 <= i < |e| :: ToLower(e)[i] == e[i];
    assert ToLower(e) == e;
    TrimOfTrimmed(e);
  }

  /** A lower-case local part at the student domain is a student. */
  lemma StudentAddress(local: string)
    requires NoUpperCase(local) && local != [] && !IsSpace(local[0])
    ensures RoleFromEmail(local + StudentDomain) == Student
  {
    var e := local + StudentDomain;
    DomainsAreLowerCase();
    NoUpperCaseConcat(local, StudentDomain);
    assert e[0] == local[0] && e[|e| - 1] == StudentDomain[|StudentDomain| - 1];
    NormalFormFixed(e);
    assert e[|e| - |StudentDomain|..] == StudentDomain;
  }

  /** A lower-case local part at the staff domain is staff. */
  lemma StaffAddress(local: string)
    requires NoUpperCase(local) && local != [] && !IsSpace(local[0])
    ensures RoleFromEmail(local + StaffDomain) == Staff
  {
    var e := local + StaffDomain;
    DomainsAreLowerCase();
    NoUpperCaseConcat(local, StaffDomain);
    assert e[0] == local[0] && e[|e| - 1] == StaffDomain[|StaffDomain| - 1];
    NormalFormFixed(e);
    assert e[|e| - |StaffDomain|..] == StaffDomain;
    StaffIsNotStudent(e);
  }

  /** The two domains end differently, so no address is at both. */
  lemma StaffIsNotStudent(e: string)
    requires EndsWith(e, StaffDomain)
    ensures !EndsWith(e, StudentDomain)
  {
    assert e[|e| - 1] == 'u' by {
      assert e[|e| - |StaffDomain|..][|StaffDomain| - 1] == e[|e| - 1];
    }
    NotSuffix(e, StudentDomain);
  }

  /** An address whose normal form ends in neither domain's last letter is external. */
  lemma OtherEndingIsExternal(email: string)
    requires var e := NormalizeEmail(email); e != [] && e[|e| - 1] != 'e' && e[|e| - 1] != 'u'
    ensures RoleFromEmail(email) == External
  {
    var e := NormalizeEmail(email);
    NotSuffix(e, StudentDomain);
    NotSuffix(e, StaffDomain);
  }

  /** A look-alike domain such as `@mediaschool.me.org` is external. */
  lemma LookAlikeDomainIsExternal(local: string)
    requires NoUpperCase(local) && local != [] && !IsSpace(local[0])
    ensures RoleFromEmail(local + StudentDomain + ".org") == External
  {
    var e := local + StudentDomain + ".org";
    DomainsAreLowerCase();
    NoUpperCaseConcat(local, StudentDomain);
    assert NoUpperCase(".org");
    NoUpperCaseConcat(local + StudentDomain, ".org");
    assert e[0] == local[0] && e[|e| - 1] == 'g';
    NormalFormFixed(e);
    OtherEndingIsExternal(e);
  }

  lemma NotSuffix(e: string, suffix: string)
    requires e != [] && suffix != [] && e[|e| - 1] != suffix[|suffix| - 1]
    ensures !EndsWith(e, suffix)
  {
    if |suffix| <= |e| {
      assert e[|e| - |suffix|..][|suffix| - 1] == e[|e| - 1];
    }
  }

  // -----------------------------------------------------------------------
  // Users keyed by normalised e-mail

  /** A `users` row. */
  datatype DbUser = DbUser(id: string, email: string, displayName: string, passwordHash: Option<string>)

  /** `findUserByEmail`: the row whose stored e-mail equals the normalised address. */
  function FindUserByEmail(users: map<string, DbUser>, email: string): (r: Option<DbUser>)
    ensures r.Some? <==> NormalizeEmail(email) in users
    ensures r.Some? ==> r.value == users[NormalizeEmail(email)]
  {
    var key := NormalizeEmail(email);
    if key in users then Some(users[key]) else None
  }

  /**
   * `createUser`: the `users` row is inserted first, keyed by the normalised
   * address; the role lookup that follows fails with 'Role not found: <code>'
   * for an unknown role code, after the row is already written. Returns the
   * new table and the error thrown, if any.
   */
  function CreateUser(users: map<string, DbUser>, roles: set<string>, id: string, email: string,
                      passwordHash: string, displayName: string, roleCode: string)
    : (r: (map<string, DbUser>, Option<string>))
    ensures r.1.Some? <==> roleCode !in roles
    ensures r.1.Some? ==> r.1.value == "Role not found: " + roleCode
    ensures NormalizeEmail(email) in r.0 && r.0[NormalizeEmail(email)].id == id
    ensures r.0[NormalizeEmail(email)].passwordHash == Some(passwordHash)
    ensures forall k | k in users && k != NormalizeEmail(email) :: k in r.0 && r.0[k] == users[k]
    ensures r.0.Keys == users.Keys + {NormalizeEmail(email)}
  {
    var key := NormalizeEmail(email);
    var users' := users[key := DbUser(id, key, displayName, Some(passwordHash))];
    (users', if roleCode !in roles then Some("Role not found: " + roleCode) else None)
  }

  /** A user created with some spelling of an address is found with any other spelling of it. */
  lemma CreatedUserIsFound(users: map<string, DbUser>, roles: set<string>, id: string, email: string,
                           passwordHash: string, displayName: string, roleCode: string, w1: string, w2: string)
    requires AllSpace(w1) && AllSpace(w2)
    ensures var r := CreateUser(users, roles, id, email, passwordHash, displayName, roleCode);
      FindUserByEmail(r.0, w1 + ToLower(email) + w2) == Some(DbUser(id, NormalizeEmail(email), displayName, Some(passwordHash)))
  {
    NormalizeIgnoresPadding(w1, ToLower(email), w2);
    ToLowerIdempotent(email);
    NormalizeIgnoresCase(ToLower(email), email);
  }

  /**
   * `verifyPassword`: false for an account without a (non-empty) hash;
   * otherwise the answer of the hash comparison, given as `compare`.
   */
  function VerifyPassword(user: DbUser, password: string, compare: (string, string) -> bool): (ok: bool)
    ensures !Truthy(user.passwordHash) ==> !ok
    ensures Truthy(user.passwordHash) ==> ok == compare(password, user.passwordHash.value)
  {
    if !Truthy(user.passwordHash) then false else compare(password, user.passwordHash.value)
  }
}

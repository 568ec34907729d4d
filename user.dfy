/**
 * The User model: email normalisation, the validations `save` runs, the
 * `initials` helper, and the users and sessions tables as one single-threaded
 * store (`UserStore`) with the cascade of sessions on delete and
 * `authenticate_by`.
 *
 * The password hash of `has_secure_password` and the `URI::MailTo::EMAIL_REGEXP`
 * check are foreign primitives; the store receives them as the functions
 * `digestOf` and `emailFormat`, and assumes of the hash only that it is injective.
 */
module UserModel {
  import opened Wrappers
  import opened Text

  type UserId = nat
  type SessionId = nat
  type Digest = string

  /** A row of the users table; `admin` defaults to false in the schema. */
  datatype Account = Account(email: string, digest: Digest, admin: bool)

  /** A row of the sessions table: its owner, and the client metadata stored verbatim. */
  datatype Session = Session(userId: UserId, userAgent: string, ipAddress: string)

  /**
   * A permitted attribute of a request: not submitted, submitted as nil (a JSON
   * `null`), or submitted as a string.
   */
  datatype Attribute = Omitted | Null | Given(value: string)
  {
    /** The attribute as the model sees it: nil unless a string was given. */
    function AsOption(): (r: Option<string>)
      ensures r.Some? <==> Given?
      ensures Given? ==> r == Some(value)
    {
      if Given? then Some(value) else None
    }
  }

  /** The permitted attributes of a request. */
  datatype UserParams = UserParams(email: Attribute, password: Attribute, confirmation: Attribute)

  /**
   * A User object in memory before `save`: `password` is the virtual attribute
   * of `has_secure_password` (nil until a non-empty password is assigned).
   */
  datatype Draft = Draft(email: Option<string>, password: Option<string>, confirmation: Option<string>,
                         digest: Option<Digest>, admin: bool)

  /** The validation messages. */
  datatype ValidationError =
    | PasswordBlank                 // password "can't be blank" (no digest)
    | PasswordConfirmationMismatch  // password_confirmation "doesn't match Password"
    | EmailBlank                    // email_address "can't be blank"
    | EmailTaken                    // email_address "has already been taken"
    | EmailInvalid                  // email_address "is invalid"
    | PasswordTooShort              // password "is too short (minimum is 8 characters)"

  const MinPasswordLength: nat := 8

  // ---------------------------------------------------------------------------
  // Normalisation and initials

  /** `normalizes :email_address, with: ->(e) { e.strip.downcase }`. */
  function Normalize(e: string): (r: string)
    ensures Trimmed(r)
    ensures r == [] <==> AllSpace(e)
  {
    var s := Strip(e);
    DowncaseKeepsTrimmed(s);
    assert |Downcase(s)| == |s|;
    Downcase(s)
  }

  /** An address in normal form: no surrounding whitespace and no ASCII capital. */
  predicate IsNormal(e: string) {
    Trimmed(e) && forall i :: 0 <= i < |e| ==> !('A' <= e[i] <= 'Z')
  }

  /** Normalisation always yields the normal form, and the normal form is exactly what it leaves unchanged. */
  lemma NormalizeYieldsNormal(e: string)
    ensures IsNormal(Normalize(e))
    ensures IsNormal(e) <==> Normalize(e) == e
  {
    NormalizeIsNormal(e);
    if IsNormal(e) {
      NormalIsFixed(e);
    }
  }

  lemma NormalizeIsNormal(e: string)
    ensures IsNormal(Normalize(e))
  {
    var x := Strip(e);
    DowncaseKeepsTrimmed(x);
    var r := Downcase(x);
    forall i | 0 <= i < |r|
      ensures !('A' <= r[i] <= 'Z')
    {
      assert r[i] == Lower(x[i]);
    }
  }

  lemma NormalIsFixed(e: string)
    requires IsNormal(e)
    ensures Normalize(e) == e
  {
    assert Strip(e) == e;
    forall i | 0 <= i < |e|
      ensures Downcase(e)[i] == e[i]
    {
      assert Lower(e[i]) == e[i];
    }
    assert Downcase(e) == e;
  }

  /** Normalising a normalised address changes nothing. */
  lemma NormalizeIdempotent(e: string)
    ensures Normalize(Normalize(e)) == Normalize(e)
  {
    var x := Strip(e);
    DowncaseKeepsTrimmed(x);
    DowncaseIdempotent(x);
  }

  /** Addresses differing only in case and surrounding whitespace normalise alike. */
  lemma NormalizeIgnoresCaseAndSpace(e: string, left: string, right: string)
    requires AllSpace(left) && AllSpace(right)
    ensures Normalize(left + e + right) == Normalize(Downcase(e))
  {
    StripPadded(left, e, right);
    DowncaseStrip(e);
    DowncaseIdempotent(Strip(e));
  }

  /** Surrounding whitespace, on either side and of any length, is what `strip` removes. */
  lemma StripPadded(left: string, e: string, right: string)
    requires AllSpace(left) && AllSpace(right)
    ensures Strip(left + e + right) == Strip(e)
  {
    var t := e + right;
    AppendAssoc(left, e, right);
    StripLeftPadded(left, t);
    assert StripLeft(left + e + right) == StripLeft(t);
    StripLeftAppend(e, right);
    assert StripRight(StripLeft(t)) == StripRight(StripLeft(e) + right);
    StripRightPadded(StripLeft(e), right);
  }

  lemma {:induction false} StripLeftPadded(pad: string, s: string)
    requires AllSpace(pad)
    ensures StripLeft(pad + s) == StripLeft(s)
    decreases |pad|
  {
    if pad != [] {
      assert (pad + s)[1..] == pad[1..] + s;
      StripLeftPadded(pad[1..], s);
    } else {
      assert pad + s == s;
    }
  }

  lemma {:induction false} StripRightPadded(s: string, pad: string)
    requires AllSpace(pad)
    ensures StripRight(s + pad) == StripRight(s)
    decreases |pad|
  {
    if pad != [] {
      assert (s + pad)[..|s + pad| - 1] == s + pad[..|pad| - 1];
      StripRightPadded(s, pad[..|pad| - 1]);
    } else {
      assert s + pad == s;
    }
  }

  /** Leading whitespace is removed the same way whatever follows it, unless nothing but whitespace is left. */
  lemma {:induction false} StripLeftAppend(e: string, pad: string)
    requires AllSpace(pad)
    ensures StripLeft(e + pad) == StripLeft(e) + pad || (StripLeft(e) == [] && StripRight(StripLeft(e + pad)) == [])
    ensures StripRight(StripLeft(e + pad)) == StripRight(StripLeft(e) + pad)
    decreases |e|
  {
    if e == [] {
      assert e + pad == pad;
      StripLeftPadded(pad, []);
      assert pad + [] == pad;
      StripRightPadded([], pad);
      assert [] + pad == pad;
    } else if IsSpace(e[0]) {
      assert (e + pad)[1..] == e[1..] + pad;
      assert StripLeft(e + pad) == StripLeft(e[1..] + pad);
      assert StripLeft(e) == StripLeft(e[1..]);
      StripLeftAppend(e[1..], pad);
    } else {
      assert StripLeft(e) == e;
      assert StripLeft(e + pad) == e + pad by { assert (e + pad)[0] == e[0]; }
    }
  }

  /** Lowercasing commutes with stripping, since it never touches whitespace. */
  lemma DowncaseStrip(e: string)
    ensures Strip(Downcase(e)) == Downcase(Strip(e))
  {
    DowncaseStripLeft(e);
    DowncaseStripRight(StripLeft(e));
  }

  lemma {:induction false} DowncaseStripLeft(e: string)
    ensures StripLeft(Downcase(e)) == Downcase(StripLeft(e))
    decreases |e|
  {
    if e != [] {
      assert Downcase(e)[1..] == Downcase(e[1..]);
      DowncaseStripLeft(e[1..]);
    }
  }

  lemma {:induction false} DowncaseStripRight(e: string)
    ensures StripRight(Downcase(e)) == Downcase(StripRight(e))
    decreases |e|
  {
    if e != [] {
      assert Downcase(e)[..|e| - 1] == Downcase(e[..|e| - 1]);
      DowncaseStripRight(e[..|e| - 1]);
    }
  }

  /** The text before the first "@" (all of `e` when it has none). */
  function BeforeAt(e: string): (r: string)
    ensures r <= e && '@' !in r
    ensures |r| < |e| ==> e[|r|] == '@'
  {
    if e == [] || e[0] == '@' then [] else [e[0]] + BeforeAt(e[1..])
  }

  /**
   * `email.split("@").first`: `split` drops trailing empty fields, so the
   * result is nil when `email` holds nothing but "@" characters.
   */
  function FirstField(e: string): (r: Option<string>)
    ensures r.None? <==> forall i :: 0 <= i < |e| ==> e[i] == '@'
    ensures r.Some? ==> r.value <= e && '@' !in r.value && (|r.value| < |e| ==> e[|r.value|] == '@')
  {
    if forall i :: 0 <= i < |e| ==> e[i] == '@' then None else Some(BeforeAt(e))
  }

  /**
   * `email_address&.split("@")&.first&.first&.upcase || "?"`. The empty string
   * is truthy in Ruby, so an address starting with "@" gives "" and not "?".
   */
  function Initials(email: Option<string>): (r: string)
    ensures |r| <= 1
    ensures email.None? ==> r == "?"
    ensures email.Some? && email.value != [] && email.value[0] != '@' ==> r == [Upper(email.value[0])]
    ensures email.Some? && (forall i :: 0 <= i < |email.value| ==> email.value[i] == '@') ==> r == "?"
    ensures email.Some? && email.value != [] && email.value[0] == '@' && (exists i :: 0 <= i < |email.value| && email.value[i] != '@') ==> r == ""
  {
    match email
    case None => "?"
    case Some(e) =>
      match FirstField(e)
      case None => "?"
      case Some(p) => Upcase(if p == [] then [] else p[..1])
  }

  // ---------------------------------------------------------------------------
  // Attribute assignment and validation

  /** `User.new`: every attribute nil, `admin` at its schema default. */
  const EmptyDraft := Draft(None, None, None, None, false)

  /** A stored row loaded into memory. */
  function Loaded(a: Account): Draft {
    Draft(Some(a.email), None, None, Some(a.digest), a.admin)
  }

  /**
   * Mass assignment of the submitted attributes. The email is normalised on
   * assignment, except nil, which `normalizes` leaves alone. The
   * `has_secure_password` setter clears the password and its digest on nil,
   * ignores an empty password and otherwise stores it with its digest.
   */
  function Assign(d: Draft, p: UserParams, digestOf: string -> Digest): (r: Draft)
    ensures r.admin == d.admin
  {
    AssignConfirmation(AssignPassword(AssignEmail(d, p.email), p.password, digestOf), p.confirmation)
  }

  /** `email_address=`: nil is stored as nil, a string normalised. */
  function AssignEmail(d: Draft, a: Attribute): (r: Draft)
    ensures r.password == d.password && r.confirmation == d.confirmation
    ensures r.digest == d.digest && r.admin == d.admin
    ensures a.Omitted? ==> r.email == d.email
    ensures a.Null? ==> r.email.None?
    ensures a.Given? ==> r.email == Some(Normalize(a.value))
  {
    match a
    case Omitted => d
    case Null => d.(email := None)
    case Given(e) => d.(email := Some(Normalize(e)))
  }

  /** `password=` of `has_secure_password`: nil clears the digest, "" is ignored. */
  function AssignPassword(d: Draft, a: Attribute, digestOf: string -> Digest): (r: Draft)
    ensures r.email == d.email && r.confirmation == d.confirmation && r.admin == d.admin
    ensures (a.Omitted? || a == Given("")) ==> r.password == d.password && r.digest == d.digest
    ensures a.Null? ==> r.password.None? && r.digest.None?
    ensures a.Given? && a.value != "" ==> r.password == Some(a.value) && r.digest == Some(digestOf(a.value))
  {
    match a
    case Omitted => d
    case Null => d.(password := None, digest := None)
    case Given(pw) => if pw != "" then d.(password := Some(pw), digest := Some(digestOf(pw))) else d
  }

  /** `password_confirmation=`: a plain attribute. */
  function AssignConfirmation(d: Draft, a: Attribute): (r: Draft)
    ensures r.email == d.email && r.password == d.password && r.digest == d.digest && r.admin == d.admin
    ensures a.Omitted? ==> r.confirmation == d.confirmation
    ensures !a.Omitted? ==> r.confirmation == a.AsOption()
  {
    if a.Omitted? then d else d.(confirmation := a.AsOption())
  }

  /**
   * A new record that passes validation was given an address and a password of
   * at least eight characters; its row holds their normal form and digest, and
   * fits the table.
   */
  lemma NewRecordAccepted(p: UserParams, users: map<UserId, Account>, emailFormat: string -> bool,
                          digestOf: string -> Digest)
    requires Errors(Assign(EmptyDraft, p, digestOf), users, None, emailFormat) == {}
    ensures p.email.Given? && p.password.Given? && |p.password.value| >= MinPasswordLength
    ensures Assign(EmptyDraft, p, digestOf).email == Some(Normalize(p.email.value))
    ensures Assign(EmptyDraft, p, digestOf).digest == Some(digestOf(p.password.value))
    ensures RowFits(users, emailFormat, Account(Normalize(p.email.value), digestOf(p.password.value), false))
  {
    var d := Assign(EmptyDraft, p, digestOf);
    assert Acceptable(d, users, None, emailFormat);
    assert p.email.Given? && p.password.Given? && p.password.value != "";
    NormalizeYieldsNormal(p.email.value);
    assert !Taken(d.email, users, None);
  }

  /** The address after assignment: unchanged when omitted, nil for nil, otherwise normalised. */
  lemma AssignedEmail(d: Draft, p: UserParams, digestOf: string -> Digest)
    ensures p.email.Omitted? ==> Assign(d, p, digestOf).email == d.email
    ensures p.email.Null? ==> Assign(d, p, digestOf).email.None?
    ensures p.email.Given? ==> Assign(d, p, digestOf).email == Some(Normalize(p.email.value))
  {
  }

  /** ActiveSupport's `blank?` on an optional string: nil, or only `[[:space:]]` characters. */
  predicate Blank(v: Option<string>) {
    v.None? || AllBlank(v.value)
  }

  /** Another stored user already has this address (the record itself excluded). */
  predicate Taken(email: Option<string>, users: map<UserId, Account>, self: Option<UserId>) {
    exists id :: id in users && Some(id) != self && Some(users[id].email) == email
  }

  /** The confirmation is checked only when a non-blank password and a confirmation were given. */
  predicate ConfirmationMismatch(d: Draft) {
    d.password.Some? && !AllBlank(d.password.value) && d.confirmation.Some? && d.confirmation.value != d.password.value
  }

  /** What the validators of the model and of `has_secure_password` demand of a record. */
  predicate Acceptable(d: Draft, users: map<UserId, Account>, self: Option<UserId>, emailFormat: string -> bool) {
    && d.digest.Some?
    && !ConfirmationMismatch(d)
    && !Blank(d.email)
    && !Taken(d.email, users, self)
    && emailFormat(d.email.GetOr(""))
    && !((self.None? || d.password.Some?) && |d.password.GetOr("")| < MinPasswordLength)
  }

  /**
   * The errors `valid?` collects; `self` is the record's own id, `None` for a
   * new record. The length check runs on a new record, or when a password was assigned.
   */
  function Errors(d: Draft, users: map<UserId, Account>, self: Option<UserId>, emailFormat: string -> bool)
    : (r: set<ValidationError>)
    ensures r == {} <==> Acceptable(d, users, self, emailFormat)
  {
    (if d.digest.None? then {PasswordBlank} else {})
    + (if ConfirmationMismatch(d) then {PasswordConfirmationMismatch} else {})
    + (if Blank(d.email) then {EmailBlank} else {})
    + (if Taken(d.email, users, self) then {EmailTaken} else {})
    + (if !emailFormat(d.email.GetOr("")) then {EmailInvalid} else {})
    + (if (self.None? || d.password.Some?) && |d.password.GetOr("")| < MinPasswordLength then {PasswordTooShort} else {})
  }

  /** Each failed rule is reported under its own message. */
  lemma ErrorsReported(d: Draft, users: map<UserId, Account>, self: Option<UserId>, emailFormat: string -> bool)
    ensures d.digest.None? <==> PasswordBlank in Errors(d, users, self, emailFormat)
    ensures ConfirmationMismatch(d) <==> PasswordConfirmationMismatch in Errors(d, users, self, emailFormat)
    ensures Blank(d.email) <==> EmailBlank in Errors(d, users, self, emailFormat)
    ensures Taken(d.email, users, self) <==> EmailTaken in Errors(d, users, self, emailFormat)
    ensures !emailFormat(d.email.GetOr("")) <==> EmailInvalid in Errors(d, users, self, emailFormat)
    ensures (self.None? || d.password.Some?) && |d.password.GetOr("")| < MinPasswordLength
        <==> PasswordTooShort in Errors(d, users, self, emailFormat)
  {
  }

  /** A blank address, or no password, makes a new record invalid. */
  lemma NewRecordNeedsEmailAndPassword(p: UserParams, users: map<UserId, Account>, emailFormat: string -> bool,
                                       digestOf: string -> Digest)
    requires Blank(p.email.AsOption()) || !p.password.Given? || p.password == Given("")
    ensures Errors(Assign(EmptyDraft, p, digestOf), users, None, emailFormat) != {}
  {
    var d := Assign(EmptyDraft, p, digestOf);
    ErrorsReported(d, users, None, emailFormat);
    if Blank(p.email.AsOption()) {
      if p.email.Given? {
        NormalizeKeepsBlank(p.email.value);
      }
      assert Blank(d.email);
    } else {
      assert d.digest.None?;
    }
  }

  /** A `blank?` address is still `blank?` once normalised. */
  lemma NormalizeKeepsBlank(e: string)
    requires AllBlank(e)
    ensures AllBlank(Normalize(e))
  {
    BlankStaysBlank(e);
    BlankStaysBlank(Strip(e));
  }

  /**
   * The confirmation is compared whenever the new password is not `blank?`, even
   * when `strip` would remove all of it (a password of NUL characters).
   */
  lemma ConfirmationCheckedUnlessBlank(p: UserParams, users: map<UserId, Account>, emailFormat: string -> bool,
                                       digestOf: string -> Digest)
    requires p.password.Given? && !AllBlank(p.password.value)
    requires p.confirmation.Given? && p.confirmation != p.password
    ensures PasswordConfirmationMismatch in Errors(Assign(EmptyDraft, p, digestOf), users, None, emailFormat)
  {
    assert p.password.value != "";
  }

  /** A no-break space survives `strip`, and the address it leaves is still `blank?`. */
  lemma NoBreakSpaceAddressIsBlank(p: UserParams, users: map<UserId, Account>, emailFormat: string -> bool,
                                   digestOf: string -> Digest)
    requires p.email == Given("\U{00A0}")
    ensures Normalize(p.email.value) == "\U{00A0}"
    ensures EmailBlank in Errors(Assign(EmptyDraft, p, digestOf), users, None, emailFormat)
  {
    var e := "\U{00A0}";
    assert Trimmed(e);
    LowerBlank(e[0]);
    assert Downcase(e) == [Lower(e[0])];
  }

  /** A new record with a password shorter than eight characters is invalid. */
  lemma ShortPasswordRejected(p: UserParams, users: map<UserId, Account>, emailFormat: string -> bool,
                              digestOf: string -> Digest)
    requires p.password.Given? && |p.password.value| < MinPasswordLength
    ensures PasswordTooShort in Errors(Assign(EmptyDraft, p, digestOf), users, None, emailFormat)
  {
  }

  /** On a stored record the length check is skipped when no new password is supplied. */
  lemma ExistingRecordKeepsPassword(a: Account, id: UserId, p: UserParams, users: map<UserId, Account>,
                                    emailFormat: string -> bool, digestOf: string -> Digest)
    requires p.password.Omitted? || p.password == Given("")
    ensures PasswordTooShort !in Errors(Assign(Loaded(a), p, digestOf), users, Some(id), emailFormat)
    ensures PasswordBlank !in Errors(Assign(Loaded(a), p, digestOf), users, Some(id), emailFormat)
  {
  }

  /**
   * A nil password (a JSON `null`) clears the digest of a stored record, so the
   * record is reported as having no password.
   */
  lemma NullPasswordClearsDigest(a: Account, id: UserId, p: UserParams, users: map<UserId, Account>,
                                 emailFormat: string -> bool, digestOf: string -> Digest)
    requires p.password.Null?
    ensures Assign(Loaded(a), p, digestOf).digest.None?
    ensures PasswordBlank in Errors(Assign(Loaded(a), p, digestOf), users, Some(id), emailFormat)
  {
  }

  /** A nil address (a JSON `null`) is not normalised and is reported as blank. */
  lemma NullEmailIsBlank(d: Draft, p: UserParams, users: map<UserId, Account>, self: Option<UserId>,
                         emailFormat: string -> bool, digestOf: string -> Digest)
    requires p.email.Null?
    ensures Assign(d, p, digestOf).email.None?
    ensures EmailBlank in Errors(Assign(d, p, digestOf), users, self, emailFormat)
  {
  }

  /** An address equal, after normalisation, to a stored one is rejected as taken. */
  lemma DuplicateEmailRejected(p: UserParams, users: map<UserId, Account>, other: UserId,
                               emailFormat: string -> bool, digestOf: string -> Digest)
    requires p.email.Given? && other in users && users[other].email == Normalize(p.email.value)
    ensures EmailTaken in Errors(Assign(EmptyDraft, p, digestOf), users, None, emailFormat)
  {
    assert Taken(Assign(EmptyDraft, p, digestOf).email, users, None);
  }

  /** The row `save` writes for a valid draft. */
  function Row(d: Draft): Account
    requires d.email.Some? && d.digest.Some?
  {
    Account(d.email.value, d.digest.value, d.admin)
  }

  // ---------------------------------------------------------------------------
  // Store invariants

  ghost predicate Injective(digestOf: string -> Digest) {
    forall a, b :: digestOf(a) == digestOf(b) ==> a == b
  }

  /** No two stored users share an address. */
  predicate UniqueEmails(users: map<UserId, Account>) {
    forall a, b :: a in users && b in users && a != b ==> users[a].email != users[b].email
  }

  /** Stored addresses are normalised, present and well formed. */
  predicate EmailsWellFormed(users: map<UserId, Account>, emailFormat: string -> bool) {
    forall id :: id in users ==>
      IsNormal(users[id].email) && users[id].email != [] && emailFormat(users[id].email)
  }

  /** Every session belongs to a stored user. */
  predicate SessionsLive(sessions: map<SessionId, Session>, users: map<UserId, Account>) {
    forall sid :: sid in sessions ==> sessions[sid].userId in users
  }

  /** A row the table accepts: a normalised, present, well-formed address no stored user has. */
  predicate RowFits(users: map<UserId, Account>, emailFormat: string -> bool, a: Account) {
    && IsNormal(a.email) && a.email != [] && emailFormat(a.email)
    && forall u :: u in users ==> users[u].email != a.email
  }

  /**
   * Inserting a fitting row under a fresh id keeps the stored addresses unique
   * and well formed and every session's owner stored.
   */
  lemma InsertKeepsInvariant(users: map<UserId, Account>, sessions: map<SessionId, Session>,
                             emailFormat: string -> bool, id: UserId, a: Account)
    requires UniqueEmails(users) && EmailsWellFormed(users, emailFormat) && SessionsLive(sessions, users)
    requires id !in users && RowFits(users, emailFormat, a)
    ensures UniqueEmails(users[id := a]) && EmailsWellFormed(users[id := a], emailFormat)
    ensures SessionsLive(sessions, users[id := a])
  {
  }

  function OwnedSessions(sessions: map<SessionId, Session>, uid: UserId): set<SessionId> {
    set sid | sid in sessions && sessions[sid].userId == uid
  }

  function SessionCount(sessions: map<SessionId, Session>, uid: UserId): nat {
    |OwnedSessions(sessions, uid)|
  }

  /** Stored addresses are distinct even after normalising them again. */
  lemma NormalizedEmailsDistinct(users: map<UserId, Account>, emailFormat: string -> bool, a: UserId, b: UserId)
    requires UniqueEmails(users) && EmailsWellFormed(users, emailFormat)
    requires a in users && b in users && a != b
    ensures Normalize(users[a].email) != Normalize(users[b].email)
  {
    NormalizeYieldsNormal(users[a].email);
    NormalizeYieldsNormal(users[b].email);
  }

  /** Saving a valid draft under any id keeps the addresses unique and well formed. */
  lemma SaveKeepsInvariant(users: map<UserId, Account>, emailFormat: string -> bool, d: Draft,
                           id: UserId, self: Option<UserId>)
    requires UniqueEmails(users) && EmailsWellFormed(users, emailFormat)
    requires self.None? ==> id !in users
    requires self.Some? ==> self.value == id
    requires d.email.Some? && IsNormal(d.email.value)
    requires Acceptable(d, users, self, emailFormat)
    ensures UniqueEmails(users[id := Row(d)]) && EmailsWellFormed(users[id := Row(d)], emailFormat)
  {
    var u := users[id := Row(d)];
    forall a, b | a in u && b in u && a != b
      ensures u[a].email != u[b].email
    {
      if a == id {
        assert !Taken(d.email, users, self);
        assert b in users && Some(b) != self;
      } else if b == id {
        assert !Taken(d.email, users, self);
        assert a in users && Some(a) != self;
      }
    }
  }

  /** A new session owned by `uid` raises that user's count by one and leaves every other count alone. */
  lemma AddSessionCount(sessions: map<SessionId, Session>, sid: SessionId, s: Session, uid: UserId)
    requires sid !in sessions
    ensures OwnedSessions(sessions[sid := s], uid)
         == if s.userId == uid then OwnedSessions(sessions, uid) + {sid} else OwnedSessions(sessions, uid)
    ensures SessionCount(sessions[sid := s], uid)
         == SessionCount(sessions, uid) + (if s.userId == uid then 1 else 0)
  {
    var before := OwnedSessions(sessions, uid);
    var after := OwnedSessions(sessions[sid := s], uid);
    if s.userId == uid {
      assert after == before + {sid};
      assert sid !in before;
    } else {
      assert after == before;
    }
  }

  /** The sessions table once the sessions of `uid` are destroyed. */
  function WithoutOwner(sessions: map<SessionId, Session>, uid: UserId): (r: map<SessionId, Session>)
    ensures OwnedSessions(r, uid) == {}
    ensures forall sid :: sid in sessions && sessions[sid].userId != uid ==> sid in r && r[sid] == sessions[sid]
    ensures forall sid :: sid in r ==> sid in sessions
  {
    var r := map sid | sid in sessions && sessions[sid].userId != uid :: sessions[sid];
    assert forall sid :: sid in OwnedSessions(r, uid) ==> false;
    r
  }

  /** Destroying one user's sessions keeps every other user's count. */
  lemma WithoutOwnerKeepsOthers(sessions: map<SessionId, Session>, uid: UserId, other: UserId)
    requires other != uid
    ensures SessionCount(WithoutOwner(sessions, uid), other) == SessionCount(sessions, other)
  {
    assert OwnedSessions(WithoutOwner(sessions, uid), other) == OwnedSessions(sessions, other);
  }

  // ---------------------------------------------------------------------------
  // The store

  class UserStore {
    const digestOf: string -> Digest
    const emailFormat: string -> bool
    var users: map<UserId, Account>
    var sessions: map<SessionId, Session>
    var nextUserId: nat
    var nextSessionId: nat

    ghost predicate Valid()
      reads this
    {
      && Injective(digestOf)
      && UniqueEmails(users)
      && EmailsWellFormed(users, emailFormat)
      && SessionsLive(sessions, users)
      && (forall id :: id in users ==> id < nextUserId)
      && (forall sid :: sid in sessions ==> sid < nextSessionId)
    }

    constructor (digestOf: string -> Digest, emailFormat: string -> bool)
      requires Injective(digestOf)
      ensures Valid()
      ensures this.digestOf == digestOf && this.emailFormat == emailFormat
      ensures users == map[] && sessions == map[]
    {
      this.digestOf := digestOf;
      this.emailFormat := emailFormat;
      users := map[];
      sessions := map[];
      nextUserId := 0;
      nextSessionId := 0;
    }

    /**
     * `User.new(params).save`: on success one row is inserted under a fresh
     * id, with the normalised address, the digest of the password, and
     * `admin` false; on failure nothing changes and the errors are returned.
     */
    method Create(params: UserParams) returns (result: Result<UserId, set<ValidationError>>)
      requires Valid()
      modifies this
      ensures Valid()
      ensures var errors := Errors(Assign(EmptyDraft, params, digestOf), old(users), None, emailFormat);
        if errors == {} then
          && params.email.Given? && params.password.Given? && |params.password.value| >= MinPasswordLength
          && result == Ok(old(nextUserId))
          && old(nextUserId) !in old(users)
          && users == old(users)[old(nextUserId) := Account(Normalize(params.email.value), digestOf(params.password.value), false)]
          && nextUserId == old(nextUserId) + 1
        else
          result == Err(errors) && users == old(users) && nextUserId == old(nextUserId)
      ensures sessions == old(sessions) && nextSessionId == old(nextSessionId)
    {
      var draft := Assign(EmptyDraft, params, digestOf);
      var errors := Errors(draft, users, None, emailFormat);
      if errors != {} {
        return Err(errors);
      }
      NewRecordAccepted(params, users, emailFormat, digestOf);
      var id := Insert(Account(Normalize(params.email.value), digestOf(params.password.value), false));
      result := Ok(id);
    }

    /** The INSERT of an accepted row, under the next free id. */
    method Insert(a: Account) returns (id: UserId)
      requires Valid() && RowFits(users, emailFormat, a)
      modifies this
      ensures Valid()
      ensures id == old(nextUserId) && id !in old(users) && nextUserId == id + 1
      ensures users == old(users)[id := a]
      ensures sessions == old(sessions) && nextSessionId == old(nextSessionId)
    {
      id := nextUserId;
      InsertKeepsInvariant(users, sessions, emailFormat, id, a);
      users := users[id := a];
      nextUserId := nextUserId + 1;
    }

    /**
     * `user.update(params)` on the stored record `id`: assigns the permitted
     * attributes and saves; the record keeps its `admin` flag. On failure
     * nothing changes.
     */
    method Update(id: UserId, params: UserParams) returns (result: Result<UserId, set<ValidationError>>)
      requires Valid() && id in users
      modifies this
      ensures Valid()
      ensures var draft := Assign(Loaded(old(users)[id]), params, digestOf);
        var errors := Errors(draft, old(users), Some(id), emailFormat);
        if errors == {} then
          && result == Ok(id)
          && users == old(users)[id := Row(draft)]
          && users[id].email == (if params.email.Given? then Normalize(params.email.value) else old(users)[id].email)
          && users[id].admin == old(users)[id].admin
        else
          result == Err(errors) && users == old(users)
      ensures sessions == old(sessions) && nextUserId == old(nextUserId) && nextSessionId == old(nextSessionId)
    {
      var draft := Assign(Loaded(users[id]), params, digestOf);
      var errors := Errors(draft, users, Some(id), emailFormat);
      if errors != {} {
        return Err(errors);
      }
      AssignedEmail(Loaded(users[id]), params, digestOf);
      if params.email.Given? {
        NormalizeYieldsNormal(params.email.value);
      } else {
        assert params.email.Omitted? && draft.email == Some(users[id].email);
      }
      SaveKeepsInvariant(users, emailFormat, draft, id, Some(id));
      users := users[id := Row(draft)];
      result := Ok(id);
    }

    /**
     * `user.destroy` with `dependent: :destroy`: each owned session is
     * destroyed, then the user row.
     */
    method Destroy(id: UserId)
      requires Valid()
      modifies this
      ensures Valid()
      ensures users == old(users) - {id}
      ensures sessions == WithoutOwner(old(sessions), id)
      ensures forall sid :: sid in OwnedSessions(old(sessions), id) ==> sid !in sessions
      ensures nextUserId == old(nextUserId) && nextSessionId == old(nextSessionId)
    {
      var pending := OwnedSessions(sessions, id);
      ghost var owned := pending;
      while pending != {}
        invariant pending <= owned
        invariant sessions == old(sessions) - (owned - pending)
        invariant users == old(users)
        invariant nextUserId == old(nextUserId) && nextSessionId == old(nextSessionId)
        decreases pending
      {
        var sid :| sid in pending;
        sessions := sessions - {sid};
        pending := pending - {sid};
      }
      assert sessions == WithoutOwner(old(sessions), id);
      users := users - {id};
    }

    /**
     * `user.sessions.create!(user_agent:, ip_address:)`: a new session under a
     * fresh id; refused ("must exist") when the owner is not stored.
     */
    method AddSession(uid: UserId, userAgent: string, ipAddress: string) returns (result: Option<SessionId>)
      requires Valid()
      modifies this
      ensures Valid()
      ensures users == old(users) && nextUserId == old(nextUserId)
      ensures uid !in users ==> result == None && sessions == old(sessions) && nextSessionId == old(nextSessionId)
      ensures uid in users ==>
        && result == Some(old(nextSessionId))
        && old(nextSessionId) !in old(sessions)
        && sessions == old(sessions)[old(nextSessionId) := Session(uid, userAgent, ipAddress)]
        && SessionCount(sessions, uid) == SessionCount(old(sessions), uid) + 1
        && nextSessionId == old(nextSessionId) + 1
    {
      if uid !in users {
        return None;
      }
      var sid := nextSessionId;
      AddSessionCount(sessions, sid, Session(uid, userAgent, ipAddress), uid);
      sessions := sessions[sid := Session(uid, userAgent, ipAddress)];
      nextSessionId := nextSessionId + 1;
      result := Some(sid);
    }

    /**
     * `User.authenticate_by(email_address:, password:)`: the address is
     * normalised before the lookup; an empty password, an unknown address and
     * a wrong password all give nil.
     */
    method Authenticate(email: string, password: string) returns (result: Option<UserId>)
      requires Valid()
      ensures result.Some? <==> Authenticates(users, digestOf, email, password)
      ensures result.Some? ==>
        result.value in users && users[result.value].email == Normalize(email) && users[result.value].digest == digestOf(password)
    {
      if password == "" {
        return None;
      }
      var key := Normalize(email);
      if !exists id :: id in users && users[id].email == key {
        return None;
      }
      var id :| id in users && users[id].email == key;
      if users[id].digest == digestOf(password) {
        result := Some(id);
      } else {
        result := None;
      }
    }
  }

  /**
   * `authenticate_by` finds a user: the password is non-empty and some stored
   * user has the normalised address and that password's digest.
   */
  predicate Authenticates(users: map<UserId, Account>, digestOf: string -> Digest, email: string, password: string) {
    password != "" && exists id :: id in users && users[id].email == Normalize(email) && users[id].digest == digestOf(password)
  }

  /**
   * With unique addresses and an injective hash, signing in with the address
   * of the user registered with `registered` succeeds for that password and
   * fails for every other one.
   */
  lemma OnlyRegisteredPasswordMatches(users: map<UserId, Account>, digestOf: string -> Digest, id: UserId,
                                      email: string, registered: string, attempt: string)
    requires Injective(digestOf) && UniqueEmails(users)
    requires id in users && users[id].email == Normalize(email) && users[id].digest == digestOf(registered)
    requires registered != ""
    ensures Authenticates(users, digestOf, email, attempt) <==> attempt == registered
  {
    if Authenticates(users, digestOf, email, attempt) {
      var other :| other in users && users[other].email == Normalize(email) && users[other].digest == digestOf(attempt);
      assert other == id;
    }
  }
}

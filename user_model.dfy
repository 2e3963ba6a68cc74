/**
 * The user record kept by the server: a name, a unique phone number, a
 * password stored as a hash, and a role. Phone and password are checked
 * by validators before every save, and the password is hashed on save
 * only when it has been changed.
 */
module UserModel {
  import opened Wrappers
  import opened Text

  // ---------------------------------------------------------------------
  // roles

  datatype Role = Medic | Doctor

  function RoleName(r: Role): string
  {
    match r
    case Medic => "medic"
    case Doctor => "doctor"
  }

  /** The role enumeration: only "medic" and "doctor" are accepted. */
  function ParseRole(s: string): Option<Role>
  {
    if s == "medic" then Some(Medic) else if s == "doctor" then Some(Doctor) else None
  }

  /** A role that is not given is "medic". */
  const DefaultRole: Role := Medic

  /** Each role's name parses back to it, and nothing else parses. */
  lemma RoleNames(r: Role, s: string)
    ensures ParseRole(RoleName(r)) == Some(r)
    ensures ParseRole(s).Some? ==> RoleName(ParseRole(s).value) == s
  {
  }

  // ---------------------------------------------------------------------
  // validators

  /**
   * The pattern `^\+?[1-9]\d{7,14}$`: an optional '+', a digit 1-9, then
   * 7 to 14 further ASCII digits and nothing else.
   */
  predicate PhonePattern(v: string)
  {
    var body := if |v| > 0 && v[0] == '+' then v[1..] else v;
    8 <= |body| <= 15 && '1' <= body[0] <= '9' && AllDigits(body)
  }

  /** The phone validator: an empty phone is rejected, any other must match the pattern. */
  predicate ValidPhone(v: string)
  {
    v != "" && PhonePattern(v)
  }

  /** A phone assembled from its parts, with or without the leading '+'. */
  function PhoneOf(plus: bool, lead: char, rest: string): string
  {
    (if plus then "+" else "") + [lead] + rest
  }

  /**
   * The validator accepts exactly the texts made of an optional '+', a
   * leading digit 1-9 and 7 to 14 more digits (a '+' written as the lead
   * of an unsigned phone is the sign itself, so that case is excluded).
   */
  lemma PhoneShape(plus: bool, lead: char, rest: string)
    requires plus || lead != '+'
    ensures ValidPhone(PhoneOf(plus, lead, rest)) <==> '1' <= lead <= '9' && AllDigits(rest) && 7 <= |rest| <= 14
  {
    var p := PhoneOf(plus, lead, rest);
    var body := [lead] + rest;
    if plus {
      assert p == "+" + body && p[1..] == body;
    } else {
      assert p == body;
    }
    assert body[1..] == rest;
    if AllDigits(body) {
      assert forall i :: 0 <= i < |rest| ==> rest[i] == body[i + 1];
    }
  }

  /** Every valid phone is one of those texts: its sign, its leading digit and the rest. */
  lemma PhoneDecomposes(v: string)
    requires ValidPhone(v)
    ensures var b := if v[0] == '+' then v[1..] else v;
            v == PhoneOf(v[0] == '+', b[0], b[1..])
  {
    var b := if v[0] == '+' then v[1..] else v;
    assert b == [b[0]] + b[1..];
    if v[0] == '+' { assert v == "+" + v[1..]; }
  }

  /** The registration test's phone is accepted; the login test's all-zero phone is not. */
  lemma PhoneExamples()
    ensures ValidPhone("+12345678901")
    ensures !ValidPhone("+00000000000")
    ensures !ValidPhone("1234567")
  {
    PhoneShape(true, '1', "2345678901");
    assert PhoneOf(true, '1', "2345678901") == "+12345678901";
    var zeros := "+00000000000";
    assert zeros[1..][0] == '0';
  }

  /** The length JavaScript reports: UTF-16 code units, two for a character outside the Basic Multilingual Plane. */
  function Utf16Length(s: string): (n: nat)
    ensures |s| <= n <= 2 * |s|
  {
    if |s| == 0 then 0 else (if s[0] as int > 0xFFFF then 2 else 1) + Utf16Length(s[1..])
  }

  /** The password validator: present and at least 8 UTF-16 code units long. */
  predicate ValidPassword(v: string)
  {
    v != "" && Utf16Length(v) >= 8
  }

  /**
   * Eight characters always suffice; four characters outside the Basic
   * Multilingual Plane suffice too, although they are fewer than eight.
   */
  lemma PasswordLength(v: string)
    ensures |v| >= 8 ==> ValidPassword(v)
    ensures |v| < 4 ==> !ValidPassword(v)
    ensures ValidPassword("\U{1F600}\U{1F600}\U{1F600}\U{1F600}")
  {
    var w := "\U{1F600}\U{1F600}\U{1F600}\U{1F600}";
    assert w[1..][1..][1..][1..] == "";
  }

  // ---------------------------------------------------------------------
  // the document

  /** bcrypt with a fixed cost: `hash` fails with `None`, `matches` compares a candidate with a stored hash. */
  datatype Hasher = Hasher(hash: string -> Option<string>, matches: (string, string) -> bool)

  /** A sound hasher recognises every password it has hashed. */
  ghost predicate Sound(h: Hasher)
  {
    forall p :: h.hash(p).Some? ==> h.matches(p, h.hash(p).value)
  }

  /** What the schema demands before a save: a non-empty name, a valid phone and a valid password. */
  predicate Validates(name: string, phone: string, password: string)
  {
    name != "" && ValidPhone(phone) && ValidPassword(password)
  }

  datatype SaveError = ValidationError | HashError

  class UserDocument {
    var name: string
    var phone: string
    var password: string
    var role: Role
    /** The password has been set or changed since the last save. */
    var passwordModified: bool

    /** A new document: name and phone are trimmed, a missing role becomes the default. */
    constructor (name: string, phone: string, password: string, role: Option<Role>)
      ensures this.name == Trim(name) && this.phone == Trim(phone) && this.password == password
      ensures this.role == role.GetOr(DefaultRole) && passwordModified
    {
      this.name := Trim(name);
      this.phone := Trim(phone);
      this.password := password;
      this.role := role.GetOr(DefaultRole);
      passwordModified := true;
    }

    method SetPassword(p: string)
      modifies this
      ensures password == p && passwordModified
      ensures name == old(name) && phone == old(phone) && role == old(role)
    {
      password := p;
      passwordModified := true;
    }

    /** The pre-save hook: hash the password if it was modified, otherwise leave it alone. */
    method HashIfModified(hash: string -> Option<string>) returns (ok: bool)
      modifies this
      ensures !old(passwordModified) ==> ok && password == old(password)
      ensures old(passwordModified) ==> ok == hash(old(password)).Some?
      ensures old(passwordModified) && ok ==> password == hash(old(password)).value
      ensures old(passwordModified) && !ok ==> password == old(password)
      ensures name == old(name) && phone == old(phone) && role == old(role) && passwordModified == old(passwordModified)
    {
      if !passwordModified {
        return true;
      }
      var h := hash(password);
      if h.None? {
        return false;
      }
      password := h.value;
      ok := true;
    }

    /**
     * `save()`: validation first, then the pre-save hook; a successful save
     * leaves the password unmodified.
     */
    method Save(hash: string -> Option<string>) returns (r: Result<(), SaveError>)
      modifies this
      ensures !Validates(old(name), old(phone), old(password)) ==>
                r == Err(ValidationError) && password == old(password) && passwordModified == old(passwordModified)
      ensures Validates(old(name), old(phone), old(password)) ==>
                (r.Ok? <==> !old(passwordModified) || hash(old(password)).Some?)
      ensures r.Ok? ==> !passwordModified
      ensures r.Ok? ==> password == if old(passwordModified) then hash(old(password)).value else old(password)
      ensures r.Err? ==> password == old(password) && passwordModified == old(passwordModified)
      ensures name == old(name) && phone == old(phone) && role == old(role)
    {
      if !Validates(name, phone, password) {
        return Err(ValidationError);
      }
      var ok := HashIfModified(hash);
      if !ok {
        return Err(HashError);
      }
      passwordModified := false;
      r := Ok(());
    }
  }

  /**
   * Saving a new document twice hashes its password once: the second save
   * keeps the stored hash.
   */
  method SaveTwiceHashesOnce(name: string, phone: string, password: string, hash: string -> Option<string>)
    returns (doc: UserDocument)
    requires Validates(Trim(name), Trim(phone), password) && hash(password).Some?
    requires ValidPassword(hash(password).value)
    ensures doc.password == hash(password).value && !doc.passwordModified
  {
    doc := new UserDocument(name, phone, password, None);
    var first := doc.Save(hash);
    var second := doc.Save(hash);
  }
}

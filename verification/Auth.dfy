/**
 Ephemeral TURN credentials, internal/auth/auth.go and internal/auth/validate.go: a
 username `expiry:user` (section 2.2 of draft-uberti-behave-turn-rest-00) and a password
 computed from it.

 The keyed hash is a parameter, any function of the secret and the username.  Times are
 nanoseconds since the Unix epoch.
 */
module Auth {
  import opened Integers
  import opened Wrappers
  import opened Text

  type Mac = (string, string) -> string

  const SECOND: int := 1_000_000_000

  // ----- decimal integers -----

  function Digit(d: int): char
    requires 0 <= d < 10
  {
    ('0' as int + d) as char
  }

  predicate IsDigit(c: char) {
    '0' <= c <= '9'
  }

  function Digits(n: nat): (s: string)
    ensures s != []
  {
    if n < 10 then [Digit(n)] else Digits(n / 10) + [Digit(n % 10)]
  }

  /** `fmt.Sprintf("%d", n)`. */
  function PrintInt(n: int): string {
    if n < 0 then "-" + Digits(-n) else Digits(n)
  }

  function ParseDigits(s: string): Option<nat> {
    if s == [] || !IsDigit(s[|s| - 1]) then None
    else
      var d := s[|s| - 1] as int - '0' as int;
      if |s| == 1 then Some(d)
      else
        var front := ParseDigits(s[..|s| - 1]);
        if front.None? then None else Some(front.value * 10 + d)
  }

  /** `strconv.ParseInt(s, 10, 64)`: an optional sign, digits, and a value in range. */
  function ParseInt(s: string): Option<int> {
    var signed := s != [] && (s[0] == '+' || s[0] == '-');
    var digits := ParseDigits(if signed then s[1..] else s);
    if digits.None? then None
    else
      var v: int := digits.value;
      var n := if signed && s[0] == '-' then -v else v;
      if InInt64(n) then Some(n) else None
  }

  lemma {:induction false} DigitsRoundTrip(n: nat)
    ensures ParseDigits(Digits(n)) == Some(n)
    ensures forall c :: c in Digits(n) ==> IsDigit(c)
  {
    if n >= 10 {
      DigitsRoundTrip(n / 10);
      var s := Digits(n);
      assert s[..|s| - 1] == Digits(n / 10);
    }
  }

  /** Printing and parsing an integer gives it back if and only if it fits in 64 bits. */
  lemma IntRoundTripIff(n: int)
    ensures ParseInt(PrintInt(n)) == (if InInt64(n) then Some(n) else None)
    ensures ':' !in PrintInt(n)
  {
    if n < 0 {
      DigitsRoundTrip(-n);
      SignedRoundTrip(Digits(-n), -n);
    } else {
      DigitsRoundTrip(n);
      UnsignedRoundTrip(Digits(n), n);
    }
  }

  lemma SignedRoundTrip(s: string, n: nat)
    requires ParseDigits(s) == Some(n)
    ensures ParseInt("-" + s) == (if InInt64(0 - n) then Some(0 - n) else None)
  {
    assert ("-" + s)[1..] == s;
  }

  lemma UnsignedRoundTrip(s: string, n: nat)
    requires ParseDigits(s) == Some(n) && s != [] && forall c :: c in s ==> IsDigit(c)
    ensures ParseInt(s) == (if InInt64(n) then Some(n) else None)
  {
    assert IsDigit(s[0]);
  }

  /** The digits are decimal, the most significant first. */
  lemma DigitsAreDecimal(n: nat, d: nat)
    requires d < 10
    ensures Digits(10 * n + d) == (if n == 0 then [] else Digits(n)) + ["0123456789"[d]]
    ensures PrintInt(-10 * n - d) == if n + d == 0 then "0" else "-" + Digits(10 * n + d)
  {
    assert (10 * n + d) / 10 == n && (10 * n + d) % 10 == d;
  }

  /** A plus sign and leading zeros are accepted as `strconv.ParseInt` accepts them. */
  lemma ParseLenient(n: nat)
    requires InInt64(n)
    ensures ParseInt("+" + Digits(n)) == Some(n) && ParseInt("0" + Digits(n)) == Some(n)
  {
    DigitsRoundTrip(n);
    LeadingZero(Digits(n));
    assert ("+" + Digits(n))[1..] == Digits(n);
  }

  /** Exactly the strings of one or more decimal digits parse, each digit counting ten times the next. */
  lemma {:induction false} DigitsParseIff(s: string)
    ensures ParseDigits(s).Some? <==> s != [] && forall c :: c in s ==> c in "0123456789"
    ensures ParseDigits(s).Some? && |s| > 1 ==>
              var d := s[|s| - 1] as int - '0' as int; ParseDigits(s).value == 10 * ParseDigits(s[..|s| - 1]).value + d
    decreases |s|
  {
    if s != [] {
      var n := |s| - 1;
      assert s == s[..n] + [s[n]];
      assert IsDigit(s[n]) <==> s[n] in "0123456789";
      if n > 0 {
        DigitsParseIff(s[..n]);
      }
    }
  }

  /** An optional sign and digits parse to the value they spell if it fits in 64 bits; nothing else parses. */
  lemma ParseIntIff(s: string)
    ensures var digits := if s != [] && s[0] in "+-" then s[1..] else s;
            if digits == [] || exists c :: c in digits && c !in "0123456789" then ParseInt(s) == None
            else
              && ParseDigits(digits).Some?
              && var v := if s[0] == '-' then 0 - ParseDigits(digits).value else ParseDigits(digits).value;
                 ParseInt(s) == if InInt64(v) then Some(v) else None
  {
    DigitsParseIff(if s != [] && s[0] in "+-" then s[1..] else s);
  }

  lemma {:induction false} LeadingZero(s: string)
    requires ParseDigits(s).Some?
    ensures ParseDigits("0" + s) == ParseDigits(s)
    decreases |s|
  {
    var n := |s| - 1;
    assert ("0" + s)[..n + 1] == "0" + s[..n];
    if n > 0 {
      LeadingZero(s[..n]);
    } else {
      assert "0" + s[..0] == "0";
      assert ParseDigits("0") == Some(0);
    }
  }

  // ----- credentials -----

  /** `Time.Unix`: whole seconds, rounded down. */
  function Unix(t: int): int {
    t / SECOND
  }

  datatype Credentials = Credentials(username: string, password: string)

  function Username(expiry: int, userID: string): string {
    PrintInt(expiry) + ":" + userID
  }

  function GenerateCredentials(mac: Mac, secret: string, userID: string, now: int, validity: int): Credentials {
    var username := Username(Unix(now + validity), userID);
    Credentials(username, mac(secret, username))
  }

  /** The user of a well-formed username that has not expired. */
  function ValidateUsername(username: string, now: int): Option<string> {
    var parts := SplitTwo(username, ':');
    if |parts| != 2 || parts[1] == "" then None
    else
      var expiry := ParseInt(parts[0]);
      if expiry.None? || Unix(now) > expiry.value then None else Some(parts[1])
  }

  function ValidateCredentials(mac: Mac, given: Credentials, secret: string, now: int): Option<string> {
    var userID := ValidateUsername(given.username, now);
    if userID.None? || given.password != mac(secret, given.username) then None else userID
  }

  /** A username gives back its user, colons included, up to its expiry and not after; an empty user never. */
  lemma UsernameRoundTrip(expiry: int, userID: string, now: int)
    requires InInt64(expiry)
    ensures ValidateUsername(Username(expiry, userID), now)
         == if userID != "" && Unix(now) <= expiry then Some(userID) else None
  {
    var u := Username(expiry, userID);
    IntRoundTripIff(expiry);
    BeforeStops(PrintInt(expiry), userID, ':');
    assert u[|PrintInt(expiry)| + 1..] == userID;
    assert SplitTwo(u, ':') == [PrintInt(expiry), userID];
  }

  /**
   Generated credentials validate, as their user, for the whole of their validity, never a
   second or more after it, and exactly until the second of expiry has passed.
   */
  lemma CredentialLifetime(mac: Mac, secret: string, userID: string, issued: int, validity: int, now: int)
    requires userID != "" && InInt64(Unix(issued + validity))
    ensures var r := ValidateCredentials(mac, GenerateCredentials(mac, secret, userID, issued, validity), secret, now);
            && r == (if Unix(now) <= Unix(issued + validity) then Some(userID) else None)
            && (now <= issued + validity ==> r == Some(userID))
            && (now >= issued + validity + SECOND ==> r == None)
  {
    UsernameRoundTrip(Unix(issued + validity), userID, now);
  }

  /**
   What validates is exactly an unexpired `expiry:user` with the password that the secret
   gives for it; so a pair validates under another secret only if the hashes agree.
   */
  lemma ValidatesIff(mac: Mac, given: Credentials, secret: string, now: int, userID: string)
    ensures ValidateCredentials(mac, given, secret, now) == Some(userID) <==>
              && userID != ""
              && given.password == mac(secret, given.username)
              && exists stamp :: ':' !in stamp && given.username == stamp + ":" + userID
                   && ParseInt(stamp).Some? && Unix(now) <= ParseInt(stamp).value
  {
    var u := given.username;
    var b := Before(u, ':');
    if b != u {
      assert u == b + ":" + u[|b| + 1..];
    }
    if stamp :|
      && ':' !in stamp && u == stamp + ":" + userID
      && ParseInt(stamp).Some? && Unix(now) <= ParseInt(stamp).value {
      BeforeStops(stamp, userID, ':');
      assert b == stamp && u[|b| + 1..] == userID;
    }
  }

  /**
   A generated username carries the second, since the epoch, in which it expires, and a
   colon and the user after it; it validates until that second is over.
   */
  lemma StampIsExpiry(mac: Mac, secret: string, userID: string, issued: int, validity: int, e: int)
    requires e * 1_000_000_000 <= issued + validity < (e + 1) * 1_000_000_000
    ensures var c := GenerateCredentials(mac, secret, userID, issued, validity);
            && c.username == PrintInt(e) + ":" + userID
            && c.password == mac(secret, c.username)
            && (userID != "" && InInt64(e) ==>
                  forall now :: ValidateCredentials(mac, c, secret, now).Some? <==> now < (e + 1) * 1_000_000_000)
  {
    assert Unix(issued + validity) == e;
    if userID != "" && InInt64(e) {
      var c := GenerateCredentials(mac, secret, userID, issued, validity);
      forall now
        ensures ValidateCredentials(mac, c, secret, now).Some? <==> now < (e + 1) * 1_000_000_000
      {
        CredentialLifetime(mac, secret, userID, issued, validity, now);
      }
    }
  }
}

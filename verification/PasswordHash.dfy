/** The stored password hash of `auth_service.py`: what `hash_password` prints, what
    `verify_password` makes of any stored string, and how many derivation rounds it spends. */
module PasswordHash {
  import opened Options
  import opened Base64Url

  const ALGORITHM := "pbkdf2_sha256"

  /** PBKDF2 over password, salt and count; outside these counts the library raises. */
  type Kdf = (string, seq<Byte>, int) -> seq<Byte>

  predicate KdfAccepts(iters: int) { 1 <= iters <= 0x7fff_ffff }

  // ------------------------------------------------------------------
  // Decimal counts
  // ------------------------------------------------------------------

  predicate IsDigit(c: char) { '0' <= c <= '9' }

  predicate AllDigits(s: string) { forall i :: 0 <= i < |s| ==> IsDigit(s[i]) }

  function Decimal(n: nat): (s: string)
    ensures |s| > 0 && AllDigits(s)
  {
    (if n < 10 then "" else Decimal(n / 10)) + [('0' as int + n % 10) as char]
  }

  predicate IsSpace(c: char) { c in " \t\n\r" || c as int in {11, 12, 28, 29, 30, 31} }

  function Stripped(s: string): (t: string)
    ensures |t| <= |s|
    decreases |s|
  {
    if s == "" then ""
    else if IsSpace(s[0]) then Stripped(s[1..])
    else if IsSpace(s[|s| - 1]) then Stripped(s[..|s| - 1])
    else s
  }

  /** Digits, with single underscores allowed between them. */
  function Digits(s: string): (n: Option<nat>)
    decreases |s|
  {
    if s == "" || !IsDigit(s[|s| - 1]) then None
    else
      var front, digit := s[..|s| - 1], s[|s| - 1] as int - '0' as int;
      if front == "" then Some(digit)
      else
        match Digits(if front[|front| - 1] == '_' then front[..|front| - 1] else front)
        case None => None
        case Some(n) => Some(n * 10 + digit)
  }

  /** `int` of a string, None where it raises. */
  function ParseInt(s: string): Option<int> {
    var t := Stripped(s);
    if t == "" then None
    else if t[0] in "+-" then
      match Digits(t[1..])
      case None => None
      case Some(n) => var magnitude: int := n; Some(if t[0] == '-' then -magnitude else magnitude)
    else
      match Digits(t)
      case None => None
      case Some(n) => Some(n)
  }

  lemma {:induction false} DigitsOfDecimal(n: nat)
    ensures Digits(Decimal(n)) == Some(n)
  {
    if n < 10 {
      assert Decimal(n) == [('0' as int + n) as char];
    } else {
      hide Digits;
      DigitsOfDecimal(n / 10);
      DigitsOneMore(Decimal(n / 10), n / 10, n % 10);
    }
  }

  lemma DigitsOneMore(s: string, n: nat, digit: nat)
    requires |s| > 0 && IsDigit(s[|s| - 1]) && Digits(s) == Some(n) && digit < 10
    ensures Digits(s + [('0' as int + digit) as char]) == Some(n * 10 + digit)
  {
    var c := ('0' as int + digit) as char;
    assert IsDigit(c) && c as int - '0' as int == digit;
    DigitsEndingIn(s, c, n);
  }

  lemma DigitsEndingIn(s: string, c: char, n: nat)
    requires |s| > 0 && IsDigit(s[|s| - 1]) && Digits(s) == Some(n) && IsDigit(c)
    ensures Digits(s + [c]) == Some(n * 10 + (c as int - '0' as int))
  {
    hide Digits;
    assert (s + [c])[..|s|] == s && (s + [c])[|s| - 1] == s[|s| - 1];
    DigitsUnfold(s + [c]);
  }

  lemma DigitsUnfold(s: string)
    requires |s| > 1 && IsDigit(s[|s| - 1]) && s[|s| - 2] != '_'
    ensures Digits(s) == match Digits(s[..|s| - 1])
      case None => None
      case Some(n) => Some(n * 10 + (s[|s| - 1] as int - '0' as int))
  {
  }

  lemma ParseDecimal(n: nat)
    ensures ParseInt(Decimal(n)) == Some(n)
  {
    hide Decimal, Digits;
    DigitsOfDecimal(n);
    var s := Decimal(n);
    assert IsDigit(s[0]) && IsDigit(s[|s| - 1]);
    assert Stripped(s) == s;
  }

  /** A sign before a printed number is read as `int` reads it. */
  lemma ParseSigned(n: nat)
    ensures ParseInt("-" + Decimal(n)).Some? && ParseInt("-" + Decimal(n)).value + n == 0
    ensures ParseInt("+" + Decimal(n)) == Some(n)
  {
    hide Decimal, Digits, Stripped;
    DigitsOfDecimal(n);
    var s := Decimal(n);
    SignedStays('-', s);
    SignedStays('+', s);
    assert ("-" + s)[1..] == s && ("+" + s)[1..] == s;
  }

  /** White space around it is stripped. */
  lemma ParseSpaced(n: nat, c: char, d: char)
    requires c in " \t\n\r" && d in " \t\n\r"
    ensures ParseInt([c] + Decimal(n) + [d]) == Some(n)
  {
    hide Decimal, Digits;
    ParseDecimal(n);
    SpacesStripped(Decimal(n), c, d);
  }

  lemma SpacesStripped(s: string, c: char, d: char)
    requires |s| > 0 && IsDigit(s[0]) && IsDigit(s[|s| - 1]) && IsSpace(c) && IsSpace(d)
    ensures Stripped([c] + s + [d]) == Stripped(s)
  {
    var t := s + [d];
    assert ([c] + s + [d])[1..] == t;
    assert t[..|t| - 1] == s && t[0] == s[0] && t[|t| - 1] == d;
  }

  /** An underscore between two digits is passed over; two of them, or one at the end, are refused. */
  lemma ParseGrouped(n: nat, digit: nat)
    requires digit < 10
    ensures Digits(Decimal(n) + "_" + [('0' as int + digit) as char]) == Some(n * 10 + digit)
    ensures Digits(Decimal(n) + "_") == None
    ensures Digits(Decimal(n) + "__" + [('0' as int + digit) as char]) == None
  {
    var s, c := Decimal(n), ('0' as int + digit) as char;
    hide Decimal;
    assert IsDigit(c) && c as int - '0' as int == digit;
    DigitsOfDecimal(n);
    assert (s + "_" + [c])[..|s| + 1] == s + "_" && (s + "_")[..|s|] == s;
    assert (s + "__" + [c])[..|s| + 2] == s + "__" && (s + "__")[..|s| + 1] == s + "_";
    assert Digits(s + "_") == None;
  }

  lemma SignedStays(sign: char, s: string)
    requires sign in "+-" && |s| > 0 && IsDigit(s[|s| - 1])
    ensures Stripped([sign] + s) == [sign] + s
  {
    assert ([sign] + s)[0] == sign && ([sign] + s)[|s|] == s[|s| - 1];
  }

  // ------------------------------------------------------------------
  // The four fields
  // ------------------------------------------------------------------

  /** The first `$`, or the length. */
  function Dollar(s: string): (i: nat)
    ensures i <= |s| && (i < |s| ==> s[i] == '$')
    ensures forall j :: 0 <= j < i ==> s[j] != '$'
  {
    if s == "" || s[0] == '$' then 0 else 1 + Dollar(s[1..])
  }

  datatype Fields = Fields(algorithm: string, count: string, salt: string, derived: string)

  /** Splitting at the first three `$`; None when there are fewer. */
  function Split(s: string): Option<Fields> {
    var i := Dollar(s);
    if i == |s| then None
    else
      var rest := s[i + 1..];
      var j := Dollar(rest);
      if j == |rest| then None
      else
        var tail := rest[j + 1..];
        var k := Dollar(tail);
        if k == |tail| then None
        else Some(Fields(s[..i], rest[..j], tail[..k], tail[k + 1..]))
  }

  predicate NoDollar(s: string) { forall i :: 0 <= i < |s| ==> s[i] != '$' }

  function Join(f: Fields): string {
    f.algorithm + ("$" + (f.count + ("$" + (f.salt + ("$" + f.derived)))))
  }

  lemma DollarAfter(a: string, b: string)
    requires NoDollar(a)
    ensures var s := a + ("$" + b);
      Dollar(s) == |a| && s[..|a|] == a && s[|a| + 1..] == b
  {
    var s := a + ("$" + b);
    assert s[|a|] == '$';
    assert forall i :: 0 <= i < |a| ==> s[i] == a[i];
  }

  lemma SplitJoin(f: Fields)
    requires NoDollar(f.algorithm) && NoDollar(f.count) && NoDollar(f.salt)
    ensures Split(Join(f)) == Some(f)
  {
    hide Dollar, NoDollar;
    DollarAfter(f.salt, f.derived);
    DollarAfter(f.count, f.salt + ("$" + f.derived));
    DollarAfter(f.algorithm, f.count + ("$" + (f.salt + ("$" + f.derived))));
  }

  // ------------------------------------------------------------------
  // Hashing and verifying
  // ------------------------------------------------------------------

  /** None where the source raises: no password, or a count the library refuses. */
  function HashPassword(kdf: Kdf, configured: int, salt: seq<Byte>, password: string): Option<string> {
    if password == "" || !KdfAccepts(configured) then None
    else Some(Join(Fields(ALGORITHM, Decimal(configured), Encode(salt), Encode(kdf(password, salt, configured)))))
  }

  /** What a stored string says once it is read: None where reading it or deriving from it raises. */
  datatype Stored = Stored(iters: int, salt: seq<Byte>, expected: seq<Byte>)

  function Read(stored: string): Option<Stored> {
    match Split(stored)
    case None => None
    case Some(f) =>
      var iters, salt, expected := ParseInt(f.count), Decode(f.salt), Decode(f.derived);
      if f.algorithm == ALGORITHM && iters.Some? && salt.Some? && expected.Some? && KdfAccepts(iters.value)
      then Some(Stored(iters.value, salt.value, expected.value)) else None
  }

  predicate Matches(kdf: Kdf, password: string, h: Stored) { kdf(password, h.salt, h.iters) == h.expected }

  /** The answer, and the rounds of derivation spent on it. */
  datatype Verdict = Verdict(accepted: bool, rounds: int)

  /** `_spend_derivation`. */
  function Spent(iters: int): int { if iters > 0 then iters else 0 }

  function VerifyPassword(kdf: Kdf, configured: int, password: string, stored: string): Verdict {
    if password == "" || stored == "" then Verdict(false, 0)
    else
      match Read(stored)
      case None => Verdict(false, Spent(configured))
      case Some(h) =>
        Verdict(Matches(kdf, password, h),
                h.iters + if h.iters < configured then Spent(configured - h.iters) else 0)
  }

  /** `dummy_verify_password`, the cost of a sign-in that names no account. */
  function DummyRounds(configured: int): int { if KdfAccepts(configured) then configured else 0 }

  /** `password_hash_is_current`. */
  predicate IsCurrent(configured: int, stored: Option<string>) {
    && stored.Some? && stored.value != ""
    && Split(stored.value).Some? && Split(stored.value).value.algorithm == ALGORITHM
    && ParseInt(Split(stored.value).value.count).Some?
    && ParseInt(Split(stored.value).value.count).value >= configured
  }

  // ------------------------------------------------------------------
  // Round trip and cost
  // ------------------------------------------------------------------

  lemma HashReadsBack(kdf: Kdf, configured: int, salt: seq<Byte>, password: string)
    requires password != "" && KdfAccepts(configured)
    ensures var stored := HashPassword(kdf, configured, salt, password).value;
      && stored != "" && Read(stored) == Some(Stored(configured, salt, kdf(password, salt, configured)))
      && Split(stored).Some? && ParseInt(Split(stored).value.count) == Some(configured)
      && Split(stored).value.algorithm == ALGORITHM
  {
    hide Split, Decimal, ParseInt, Encode, Decode;
    var derived := kdf(password, salt, configured);
    var f := Fields(ALGORITHM, Decimal(configured), Encode(salt), Encode(derived));
    EncodedPlain(salt);
    SplitJoin(f);
    ParseDecimal(configured);
    DecodeEncode(salt);
    DecodeEncode(derived);
  }

  /** A printed hash is verified by exactly the passwords that derive alike, whatever count is
      configured by then; the password hashed is one of them, and the cost is the larger count. */
  lemma VerifyAcceptsWhatWasHashed(kdf: Kdf, then_: int, now: int, salt: seq<Byte>, password: string, tried: string)
    requires password != "" && tried != "" && KdfAccepts(then_)
    ensures var stored := HashPassword(kdf, then_, salt, password).value;
      && (VerifyPassword(kdf, now, tried, stored).accepted <==> kdf(tried, salt, then_) == kdf(password, salt, then_))
      && VerifyPassword(kdf, now, password, stored).accepted
      && VerifyPassword(kdf, now, tried, stored).rounds == (if now > then_ then now else then_)
  {
    hide Split, ParseInt, Decode, HashPassword;
    HashReadsBack(kdf, then_, salt, password);
  }

  /** A hash is current exactly while the configured count has not been raised past its own; hashing
      again makes it current. */
  lemma CurrentUntilRaised(kdf: Kdf, then_: int, now: int, salt: seq<Byte>, password: string)
    requires password != "" && KdfAccepts(then_)
    ensures IsCurrent(now, HashPassword(kdf, then_, salt, password)) <==> then_ >= now
  {
    hide Split, ParseInt, Decode, HashPassword, Read;
    HashReadsBack(kdf, then_, salt, password);
    assert HashPassword(kdf, then_, salt, password).Some? by { HashSucceeds(kdf, then_, salt, password); }
  }

  lemma HashSucceeds(kdf: Kdf, configured: int, salt: seq<Byte>, password: string)
    ensures HashPassword(kdf, configured, salt, password).Some? <==> password != "" && 1 <= configured <= 0x7fff_ffff
  {
    hide Join, Decimal, Encode;
  }

  /** Nothing verifies without a password or without a stored hash, and nothing is spent on it. */
  lemma EmptyNeverVerifies(kdf: Kdf, configured: int, password: string, stored: string)
    requires password == "" || stored == ""
    ensures !VerifyPassword(kdf, configured, password, stored).accepted
    ensures VerifyPassword(kdf, configured, password, stored).rounds == 0
  {}

  /** No hash at all is never current; of any string of four fields, it is current exactly when it names
      the algorithm and its count reads as a number not below the configured one; of fewer, never. */
  lemma CurrentIff(configured: int, f: Fields)
    requires NoDollar(f.algorithm) && NoDollar(f.count) && NoDollar(f.salt)
    ensures IsCurrent(configured, Some(Join(f))) <==>
      f.algorithm == "pbkdf2_sha256" && ParseInt(f.count).Some? && ParseInt(f.count).value >= configured
    ensures !IsCurrent(configured, None)
    ensures !IsCurrent(configured, Some(f.algorithm + ("$" + (f.count + ("$" + f.salt)))))
  {
    hide ParseInt;
    SplitJoin(f);
    assert Join(f)[|f.algorithm|] == '$';
    TooFewFields(f);
  }

  lemma TooFewFields(f: Fields)
    requires NoDollar(f.algorithm) && NoDollar(f.count) && NoDollar(f.salt)
    ensures Split(f.algorithm + ("$" + (f.count + ("$" + f.salt)))) == None
  {
    hide Dollar;
    DollarAfter(f.count, f.salt);
    DollarAfter(f.algorithm, f.count + ("$" + f.salt));
  }

  /** Of any string of four fields: a password verifies exactly when it is not empty, the algorithm is the
      one named, the count is one the library takes, both byte strings decode and it derives the second
      from the first. Of a string of three fields none does. */
  lemma VerifiesIff(kdf: Kdf, configured: int, password: string, f: Fields)
    requires NoDollar(f.algorithm) && NoDollar(f.count) && NoDollar(f.salt)
    ensures VerifyPassword(kdf, configured, password, Join(f)).accepted <==>
      && password != "" && f.algorithm == "pbkdf2_sha256"
      && ParseInt(f.count).Some? && 1 <= ParseInt(f.count).value <= 0x7fff_ffff
      && Decode(f.salt).Some? && Decode(f.derived).Some?
      && kdf(password, Decode(f.salt).value, ParseInt(f.count).value) == Decode(f.derived).value
    ensures !VerifyPassword(kdf, configured, password, f.algorithm + ("$" + (f.count + ("$" + f.salt)))).accepted
  {
    hide ParseInt, Decode, Split;
    SplitJoin(f);
    TooFewFields(f);
    assert Join(f)[|f.algorithm|] == '$';
  }

  /** Whether the stored string was written at a higher count than is configured now. */
  predicate Dearer(configured: int, stored: string) { Read(stored).Some? && Read(stored).value.iters > configured }

  /** No verification is cheaper than a derivation at the configured count: any string, however
      malformed, costs exactly the configured count, unless it is a well-formed hash of a higher one,
      which costs its own. */
  lemma EveryVerifyCostsConfigured(kdf: Kdf, configured: int, password: string, stored: string)
    requires password != "" && stored != ""
    ensures var verdict := VerifyPassword(kdf, configured, password, stored);
      && verdict.rounds == (if Dearer(configured, stored) then Read(stored).value.iters else Spent(configured))
      && verdict.rounds >= configured
      && (verdict.accepted <==> Read(stored).Some? && Matches(kdf, password, Read(stored).value))
  {
    hide Read;
    assert Read(stored).Some? ==> KdfAccepts(Read(stored).value.iters) by { ReadIsDerivable(stored); }
  }

  lemma ReadIsDerivable(stored: string)
    ensures Read(stored).Some? ==> KdfAccepts(Read(stored).value.iters)
  {
    hide Split, ParseInt, Decode, KdfAccepts;
  }

  /** The rounds spent tell a caller nothing of what is stored, nor whether anything is: any two stored
      strings cost alike, and like a sign-in that names no account, unless one was written at a count
      higher than is configured now. */
  lemma RoundsTellNothing(kdf: Kdf, configured: int, p1: string, s1: string, p2: string, s2: string)
    requires p1 != "" && s1 != "" && p2 != "" && s2 != ""
    requires configured <= 0x7fff_ffff
    ensures VerifyPassword(kdf, configured, p1, s1).rounds == DummyRounds(configured) <==> !Dearer(configured, s1)
    ensures !Dearer(configured, s1) && !Dearer(configured, s2) ==>
      VerifyPassword(kdf, configured, p1, s1).rounds == VerifyPassword(kdf, configured, p2, s2).rounds
  {
    hide Read, VerifyPassword;
    ReadIsDerivable(s1);
    EveryVerifyCostsConfigured(kdf, configured, p1, s1);
    EveryVerifyCostsConfigured(kdf, configured, p2, s2);
  }
}

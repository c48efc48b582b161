/**
 * The free functions of the utilities unit: the djb2-style PIN hash and the
 * input validators for e-mail addresses, phone numbers, names, account
 * numbers and amounts. Every one of them is a pure function of its argument;
 * the three that the source writes as loops over local state (the hash
 * accumulator, the phone clean-up that erases from a copy, the flag loop of
 * the account-number check) are methods proved against the functions here.
 *
 * Characters are single bytes of a std::string; `char` is taken to be signed
 * and `unsigned long` 64 bits wide, as on the usual LP64 targets.
 */
module Utilities {
  import opened StdString

  // ---------------------------------------------------------------------------
  // simpleHash
  // ---------------------------------------------------------------------------

  /** 2^64: unsigned long wraps around modulo this value. */
  const HASH_MODULUS: nat := 0x1_0000_0000_0000_0000

  /** The djb2 starting value. */
  const HASH_SEED: nat := 5381

  /**
   * The value a character adds to the hash. The char is signed, so a byte of
   * 128..255 is negative; converting it to unsigned long adds 2^64, which the
   * reduction modulo 2^64 absorbs.
   */
  function SignedChar(c: char): (v: int)
    ensures -128 <= v < 128
    ensures v % 256 == (c as int) % 256
  {
    var b := (c as int) % 256;
    if b < 128 then b else b - 256
  }

  /** The accumulator after folding h := h * 33 + c over s, modulo 2^64. */
  function HashFold(s: string): (h: nat)
    ensures h < HASH_MODULUS
  {
    if |s| == 0 then HASH_SEED
    else (HashFold(s[..|s| - 1]) * 33 + SignedChar(s[|s| - 1])) % HASH_MODULUS
  }

  /** simpleHash(input): "0" for the empty string, else the decimal rendering of the fold. */
  function SimpleHashOf(input: string): (r: string)
    ensures |r| > 0 && AllDigits(r)
  {
    if |input| == 0 then "0" else NatToString(HashFold(input))
  }

  /** The hash loop, with the accumulator kept in 64-bit unsigned arithmetic. */
  method SimpleHash(input: string) returns (r: string)
    ensures r == SimpleHashOf(input)
  {
    if |input| == 0 {
      return "0";
    }
    var hash: nat := HASH_SEED;
    var i := 0;
    while i < |input|
      invariant 0 <= i <= |input|
      invariant hash == HashFold(input[..i])
    {
      assert input[..i + 1][..i] == input[..i];
      hash := (hash * 33 + SignedChar(input[i])) % HASH_MODULUS;
      i := i + 1;
    }
    assert input[..|input|] == input;
    r := NatToString(hash);
  }

  /** A non-empty input hashes to the decimal form of a 64-bit value: reading it back gives the fold. */
  lemma SimpleHashDecodes(input: string)
    requires |input| > 0
    ensures DigitsValue(SimpleHashOf(input)) == HashFold(input) < HASH_MODULUS
  {
    NatToStringRoundTrip(HashFold(input));
  }

  /** Two non-empty inputs have the same hash exactly when their folds agree. */
  lemma SimpleHashEqualIff(a: string, b: string)
    requires |a| > 0 && |b| > 0
    ensures SimpleHashOf(a) == SimpleHashOf(b) <==> HashFold(a) == HashFold(b)
  {
    if SimpleHashOf(a) == SimpleHashOf(b) {
      NatToStringInjective(HashFold(a), HashFold(b));
    }
  }

  /** The sample customer's PIN "1234" hashes to "6383257999". */
  lemma SamplePinHash()
    ensures SimpleHashOf("1234") == "6383257999"
  {
    SamplePinFold();
    SamplePinDigits();
  }

  lemma SamplePinFold()
    ensures HashFold("1234") == 6383257999
  {
    assert "1"[..0] == [] && HashFold("1") == 177622;
    assert "12"[..1] == "1" && HashFold("12") == 5861576;
    assert "123"[..2] == "12" && HashFold("123") == 193432059;
    assert "1234"[..3] == "123";
  }

  lemma SamplePinDigits()
    ensures NatToString(6383257999) == "6383257999"
  {
    assert NatToString(6) == "6" && NatToString(63) == "63" && NatToString(638) == "638";
    assert NatToString(6383) == "6383" && NatToString(63832) == "63832";
    assert NatToString(638325) == "638325" && NatToString(6383257) == "6383257";
    assert NatToString(63832579) == "63832579" && NatToString(638325799) == "638325799";
  }

  // ---------------------------------------------------------------------------
  // isValidEmail
  // ---------------------------------------------------------------------------

  /** The characters allowed anywhere except at the '@' and at the first '.' after it. */
  predicate EmailChar(c: char)
  {
    IsAlnum(c) || c == '.' || c == '_' || c == '-'
  }

  /** isValidEmail, following the code: first '@', then the first '.' from there, then a character scan. */
  function IsValidEmail(email: string): bool
  {
    if |email| == 0 then false
    else match FindFrom(email, '@', 0)
      case None => false
      case Some(at) =>
        if at == 0 || at == |email| - 1 then false
        else match FindFrom(email, '.', at)
          case None => false
          case Some(dot) =>
            if dot == |email| - 1 then false
            else forall i :: 0 <= i < |email| && i != at && i != dot ==> EmailChar(email[i])
  }

  /**
   * The shape isValidEmail accepts, stated without the search: exactly one '@',
   * neither first nor last, a '.' somewhere after it but not last, and only
   * letters, digits, '.', '_' and '-' elsewhere.
   */
  predicate WellFormedEmail(email: string)
  {
    exists at :: 0 < at < |email| - 1 && email[at] == '@'
      && (forall i :: 0 <= i < |email| && i != at ==> EmailChar(email[i]))
      && (exists d :: at < d < |email| - 1 && email[d] == '.')
  }

  lemma IsValidEmailIff(email: string)
    ensures IsValidEmail(email) <==> WellFormedEmail(email)
  {
    if IsValidEmail(email) {
      var at := FindFrom(email, '@', 0).value;
      var dot := FindFrom(email, '.', at).value;
      assert email[dot] == '.' && EmailChar('.');
      assert 0 < at < |email| - 1 && email[at] == '@';
      assert dot != at;
      assert at < dot < |email| - 1;
    }
    if WellFormedEmail(email) {
      var at :| 0 < at < |email| - 1 && email[at] == '@'
        && (forall i :: 0 <= i < |email| && i != at ==> EmailChar(email[i]))
        && (exists d :: at < d < |email| - 1 && email[d] == '.');
      var d :| at < d < |email| - 1 && email[d] == '.';
      var found := FindFrom(email, '@', 0);
      assert found.Some? && found.value <= at;
      assert !EmailChar('@');
      assert found.value == at;
      var foundDot := FindFrom(email, '.', at);
      assert foundDot.Some? && foundDot.value <= d;
    }
  }

  /** An accepted address holds exactly one '@'. */
  lemma ValidEmailHasOneAt(email: string)
    requires IsValidEmail(email)
    ensures exists at :: 0 <= at < |email| && email[at] == '@'
    ensures forall i, j :: 0 <= i < |email| && 0 <= j < |email| && email[i] == '@' && email[j] == '@' ==> i == j
  {
    IsValidEmailIff(email);
    var at :| 0 < at < |email| - 1 && email[at] == '@'
      && (forall i :: 0 <= i < |email| && i != at ==> EmailChar(email[i]))
      && (exists d :: at < d < |email| - 1 && email[d] == '.');
    assert !EmailChar('@');
  }

  /** The address of the sample customer is accepted. */
  lemma SampleEmailAccepted()
    ensures IsValidEmail("john@email.com")
  {
    var e := "john@email.com";
    assert e[4] == '@' && e[10] == '.';
    forall i | 0 <= i < |e| && i != 4 ensures EmailChar(e[i]) {
      assert IsAlnum(e[i]) || e[i] == '.';
    }
    IsValidEmailIff(e);
  }

  /** An address without a '.' after the '@' is rejected. */
  lemma EmailWithoutDotRejected()
    ensures !IsValidEmail("john@email")
  {
    var f := "john@email";
    assert forall i :: 0 <= i < |f| ==> f[i] != '.';
    IsValidEmailIff(f);
  }

  // ---------------------------------------------------------------------------
  // isValidPhone
  // ---------------------------------------------------------------------------

  /** The separators the clean-up removes. */
  predicate PhoneSeparator(c: char)
  {
    c == '-' || c == ' ' || c == '(' || c == ')' || c == '+'
  }

  /** The number with '-', ' ', '(', ')' and '+' erased, in that order. */
  function CleanPhone(phone: string): (r: string)
    ensures forall c :: c in r <==> c in phone && !PhoneSeparator(c)
  {
    RemoveChar(RemoveChar(RemoveChar(RemoveChar(RemoveChar(phone, '-'), ' '), '('), ')'), '+')
  }

  /** isValidPhone: non-empty, and 10 to 15 characters, all digits, after the clean-up. */
  predicate ValidPhone(phone: string)
  {
    |phone| > 0 && 10 <= |CleanPhone(phone)| <= 15 && AllDigits(CleanPhone(phone))
  }

  /** The erase-remove idiom on a copy: keeps every character but c, in order. */
  method EraseAll(s: string, c: char) returns (r: string)
    ensures r == RemoveChar(s, c)
  {
    r := [];
    var i := 0;
    while i < |s|
      invariant 0 <= i <= |s|
      invariant r == RemoveChar(s[..i], c)
    {
      assert s[..i + 1] == s[..i] + [s[i]];
      RemoveCharAppend(s[..i], c, s[i]);
      if s[i] != c {
        r := r + [s[i]];
      }
      i := i + 1;
    }
    assert s[..|s|] == s;
  }

  method IsValidPhone(phone: string) returns (ok: bool)
    ensures ok == ValidPhone(phone)
  {
    if |phone| == 0 {
      return false;
    }
    var clean := EraseAll(phone, '-');
    clean := EraseAll(clean, ' ');
    clean := EraseAll(clean, '(');
    clean := EraseAll(clean, ')');
    clean := EraseAll(clean, '+');
    if |clean| < 10 || |clean| > 15 {
      return false;
    }
    var i := 0;
    while i < |clean|
      invariant 0 <= i <= |clean|
      invariant forall j :: 0 <= j < i ==> IsDigit(clean[j])
    {
      if !IsDigit(clean[i]) {
        return false;
      }
      i := i + 1;
    }
    return true;
  }

  /** What isValidPhone means: every non-separator is a digit, and there are 10 to 15 of them. */
  lemma ValidPhoneIff(phone: string)
    ensures ValidPhone(phone) <==>
      |phone| > 0 && 10 <= |CleanPhone(phone)| <= 15
      && forall i :: 0 <= i < |phone| && !PhoneSeparator(phone[i]) ==> IsDigit(phone[i])
  {
    var clean := CleanPhone(phone);
    if AllDigits(clean) {
      forall i | 0 <= i < |phone| && !PhoneSeparator(phone[i]) ensures IsDigit(phone[i]) {
        assert phone[i] in clean;
      }
    }
    if forall i :: 0 <= i < |phone| && !PhoneSeparator(phone[i]) ==> IsDigit(phone[i]) {
      forall j | 0 <= j < |clean| ensures IsDigit(clean[j]) {
        assert clean[j] in phone;
      }
    }
  }

  /** The sample customer's "555-0123" is too short once the '-' is erased. */
  lemma ShortPhoneRejected()
    ensures !ValidPhone("555-0123")
  {
    var p := "555-0123";
    assert |RemoveChar(p, '-')| <= 7 by {
      assert p == "555" + "-" + "0123";
      assert p[0..] == p && p[1..] == "55-0123" && p[2..] == "5-0123" && p[3..] == "-0123";
    }
  }

  // ---------------------------------------------------------------------------
  // isValidName, isValidAccountNumber, isValidAmount
  // ---------------------------------------------------------------------------

  predicate NameChar(c: char)
  {
    IsAlpha(c) || c == ' '
  }

  /** The scan of isValidName: stops at the first character that is neither a letter nor a space. */
  function NameScan(s: string): bool
  {
    if |s| == 0 then true
    else if !NameChar(s[0]) then false
    else NameScan(s[1..])
  }

  function IsValidName(name: string): bool
  {
    |name| > 0 && NameScan(name)
  }

  lemma {:induction false} NameScanIff(s: string)
    ensures NameScan(s) <==> forall i :: 0 <= i < |s| ==> NameChar(s[i])
  {
    if |s| > 0 {
      NameScanIff(s[1..]);
      assert forall i :: 1 <= i < |s| ==> s[i] == s[1..][i - 1];
    }
  }

  /** isValidName accepts exactly the non-empty strings of letters and spaces. */
  lemma IsValidNameIff(name: string)
    ensures IsValidName(name) <==> |name| > 0 && forall i :: 0 <= i < |name| ==> NameChar(name[i])
  {
    NameScanIff(name);
  }

  /** isValidAccountNumber: at least three characters, some letter and some digit, anywhere. */
  predicate ValidAccountNumber(s: string)
  {
    |s| >= 3 && (exists i :: 0 <= i < |s| && IsAlpha(s[i])) && (exists j :: 0 <= j < |s| && IsDigit(s[j]))
  }

  method IsValidAccountNumber(accountNumber: string) returns (ok: bool)
    ensures ok == ValidAccountNumber(accountNumber)
  {
    if |accountNumber| == 0 || |accountNumber| < 3 {
      return false;
    }
    var hasLetter := false;
    var hasNumber := false;
    var i := 0;
    while i < |accountNumber|
      invariant 0 <= i <= |accountNumber|
      invariant hasLetter <==> exists k :: 0 <= k < i && IsAlpha(accountNumber[k])
      invariant hasNumber <==> exists k :: 0 <= k < i && IsDigit(accountNumber[k])
    {
      if IsAlpha(accountNumber[i]) {
        hasLetter := true;
      }
      if IsDigit(accountNumber[i]) {
        hasNumber := true;
      }
      i := i + 1;
    }
    ok := hasLetter && hasNumber;
  }

  /** isValidAmount: amounts are valid when non-negative. */
  predicate IsValidAmount(amount: real)
  {
    amount >= 0.0
  }
}

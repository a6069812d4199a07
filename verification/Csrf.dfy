/**
  Tokens against cross-site request forgery, after `generate_token` and `validate_token` of
  pingap-plugin/src/csrf.rs. `sign` is the encoded hash of a text and the key; like a random
  identifier it has no dot.
 */
module Csrf {
  import opened Wrappers
  import opened Text

  function Digit(d: nat): char
    requires d < 16
  {
    if d < 10 then '0' + d as char else 'a' + (d - 10) as char
  }

  function DigitOf(c: char): Option<nat> {
    if '0' <= c <= '9' then Some((c - '0') as nat)
    else if 'a' <= c <= 'f' then Some(10 + (c - 'a') as nat)
    else if 'A' <= c <= 'F' then Some(10 + (c - 'A') as nat)
    else None
  }

  /** The number in lower-case hexadecimal. */
  function Hex(n: nat): string {
    if n < 16 then [Digit(n)] else Hex(n / 16) + [Digit(n % 16)]
  }

  /** The value of a text of digits; an empty text counts nothing. */
  function DigitsValue(s: string): Option<nat> {
    if s == "" then Some(0)
    else
      var rest, last := DigitsValue(s[..|s| - 1]), DigitOf(s[|s| - 1]);
      if rest.None? || last.None? then None else Some(16 * rest.value + last.value)
  }

  /** Digits after an optional plus sign, if there are any and their value fits a `u64`. */
  function ParseHex(s: string): Option<u64> {
    var digits := if s != "" && s[0] == '+' then s[1..] else s;
    var n := DigitsValue(digits);
    if digits == "" || n.None? || n.value >= U64 then None else Some(n.value)
  }

  lemma DigitInverse(d: nat)
    requires d < 16
    ensures DigitOf(Digit(d)) == Some(d)
    ensures Digit(d) != '.' && Digit(d) != '+'
  {
  }

  lemma ValueSnoc(s: string, n: nat, d: nat)
    requires DigitsValue(s) == Some(n) && d < 16
    ensures DigitsValue(s + [Digit(d)]) == Some(16 * n + d)
  {
    DigitInverse(d);
    assert (s + [Digit(d)])[..|s|] == s;
  }

  lemma {:induction false} HexValue(n: nat)
    ensures DigitsValue(Hex(n)) == Some(n)
    ensures Hex(n) != "" && Hex(n)[0] != '+' && '.' !in Hex(n)
  {
    if n < 16 {
      DigitInverse(n);
      assert [Digit(n)][..0] == "";
    } else {
      HexValue(n / 16);
      DigitInverse(n % 16);
      ValueSnoc(Hex(n / 16), n / 16, n % 16);
    }
  }

  /** Reading what was printed gives the number back. */
  lemma HexInverse(n: u64)
    ensures ParseHex(Hex(n)) == Some(n)
  {
    HexValue(n);
  }

  /** What does not fit 64 bits is not read. */
  lemma HexTooLong(n: nat)
    requires n >= U64
    ensures ParseHex(Hex(n)) == None
  {
    HexValue(n);
  }

  function UpperCase(s: string): (r: string)
    ensures |r| == |s|
  {
    seq(|s|, i requires 0 <= i < |s| => if 'a' <= s[i] <= 'z' then s[i] - 'a' + 'A' else s[i])
  }

  lemma {:induction false} DigitsInUpperCase(s: string)
    ensures DigitsValue(UpperCase(s)) == DigitsValue(s)
  {
    if s != "" {
      var rest := s[..|s| - 1];
      DigitsInUpperCase(rest);
      assert UpperCase(s)[..|s| - 1] == UpperCase(rest);
    }
  }

  lemma {:induction false} OnlyDigits(s: string, i: nat)
    requires i < |s| && !('0' <= s[i] <= '9' || 'a' <= s[i] <= 'f' || 'A' <= s[i] <= 'F')
    ensures DigitsValue(s) == None
  {
    if i < |s| - 1 {
      OnlyDigits(s[..|s| - 1], i);
    }
  }

  /** One plus sign and the case of the digits do not matter; nothing, and other characters, are not read. */
  lemma HexReading(s: string, i: nat)
    ensures ParseHex("") == None && ParseHex("+") == None
    ensures s != "" && s[0] != '+' ==> ParseHex(['+'] + s) == ParseHex(s) == ParseHex(UpperCase(s))
    ensures i < |s| && !('0' <= s[i] <= '9' || 'a' <= s[i] <= 'f' || 'A' <= s[i] <= 'F') && (i > 0 || s[0] != '+') ==>
              ParseHex(s) == None
  {
    assert (['+'] + s)[1..] == s;
    DigitsInUpperCase(s);
    if i < |s| && !('0' <= s[i] <= '9' || 'a' <= s[i] <= 'f' || 'A' <= s[i] <= 'F') {
      if i > 0 && s[0] == '+' {
        OnlyDigits(s[1..], i - 1);
      } else {
        OnlyDigits(s, i);
      }
    }
  }

  function Generate(sign: string -> string, id: string, now: u64): string {
    var prefix := id + "." + Hex(now);
    prefix + "." + sign(prefix)
  }

  /** Seconds since the time in the token; a time that cannot be read is zero. */
  function Age(stamp: string, now: u64): u64 {
    var n := ParseHex(stamp);
    WrappingSub(now, if n.Some? then n.value else 0)
  }

  predicate Validates(sign: string -> string, ttl: u64, value: string, now: u64) {
    var parts := Split(value, '.');
    && |parts| == 3
    && (ttl > 0 ==> Age(parts[1], now) <= ttl)
    && parts[2] == sign(parts[0] + "." + parts[1])
  }

  /** The texts that `sign` gives have no dot. */
  ghost predicate SignsPlainly(sign: string -> string) {
    forall s :: '.' !in sign(s)
  }

  lemma ThreeParts(a: string, b: string, c: string)
    requires '.' !in a && '.' !in b && '.' !in c
    ensures Split(a + "." + b + "." + c, '.') == [a, b, c]
  {
    var parts := [a, b, c];
    assert parts[1..] == [b, c] && parts[1..][1..] == [c];
    assert Join([b, c], '.') == b + "." + c;
    assert Join(parts, '.') == a + "." + (b + "." + c);
    assert a + "." + (b + "." + c) == a + "." + b + "." + c;
    SplitJoin(parts, '.');
  }

  /** A token is valid until its time has passed, or for ever without a limit. */
  lemma TokenValidates(sign: string -> string, id: string, now: u64, ttl: u64, later: u64)
    requires SignsPlainly(sign) && '.' !in id && now <= later
    ensures Validates(sign, ttl, Generate(sign, id, now), later) <==> ttl == 0 || later - now <= ttl
  {
    var prefix := id + "." + Hex(now);
    HexValue(now);
    ThreeParts(id, Hex(now), sign(prefix));
  }

  /** With a limit, a token is refused before its own time: the age wraps. */
  lemma FutureTokenFails(sign: string -> string, id: string, now: u64, ttl: u64, earlier: u64)
    requires SignsPlainly(sign) && '.' !in id && earlier < now
    ensures Validates(sign, ttl, Generate(sign, id, now), earlier) <==> ttl == 0 || U64 - (now - earlier) <= ttl
  {
    var prefix := id + "." + Hex(now);
    HexValue(now);
    ThreeParts(id, Hex(now), sign(prefix));
  }

  /** A signed token whose time cannot be read is as old as the clock. */
  lemma UnreadableStamp(sign: string -> string, id: string, stamp: string, ttl: u64, now: u64)
    requires SignsPlainly(sign) && '.' !in id && '.' !in stamp && ParseHex(stamp) == None
    ensures Validates(sign, ttl, id + "." + stamp + "." + sign(id + "." + stamp), now) <==> ttl == 0 || now <= ttl
  {
    ThreeParts(id, stamp, sign(id + "." + stamp));
  }

  function IdAndStamp(id: string, stamp: string): string {
    id + "." + stamp
  }

  /** Two texts without a dot, followed by the signature of the two. */
  predicate IsSigned(sign: string -> string, value: string, id: string, stamp: string) {
    '.' !in id && '.' !in stamp && value == IdAndStamp(id, stamp) + "." + sign(IdAndStamp(id, stamp))
  }

  lemma PartsOfThree(value: string)
    requires |Split(value, '.')| == 3
    ensures var parts := Split(value, '.');
      '.' !in parts[0] && '.' !in parts[1] && value == IdAndStamp(parts[0], parts[1]) + "." + parts[2]
  {
    var parts := Split(value, '.');
    PartsAreFree(value, '.');
    JoinSplit(value, '.');
    var id, stamp, signature := parts[0], parts[1], parts[2];
    assert parts == [id, stamp, signature] && parts[1..] == [stamp, signature] && parts[1..][1..] == [signature];
    assert Join([stamp, signature], '.') == stamp + "." + signature;
    assert id + "." + (stamp + "." + signature) == IdAndStamp(id, stamp) + "." + signature;
  }

  /** Nothing is valid but a signed text whose time has not passed. */
  lemma OnlySigned(sign: string -> string, ttl: u64, value: string, now: u64)
    requires SignsPlainly(sign)
    ensures Validates(sign, ttl, value, now) <==>
      exists id, stamp :: IsSigned(sign, value, id, stamp) && (ttl > 0 ==> Age(stamp, now) <= ttl)
  {
    if Validates(sign, ttl, value, now) {
      PartsOfThree(value);
      assert IsSigned(sign, value, Split(value, '.')[0], Split(value, '.')[1]);
    }
    if id, stamp :| IsSigned(sign, value, id, stamp) && (ttl > 0 ==> Age(stamp, now) <= ttl) {
      ThreeParts(id, stamp, sign(IdAndStamp(id, stamp)));
    }
  }
}

/** The string operations the service relies on: search, lower case, and std::stoul. */
module Text {
  import opened Types
  import opened Counter64

  function LowerChar(c: char): char {
    if 'A' <= c <= 'Z' then (c as int + 32) as char else c
  }

  function Lower(s: string): (r: string)
    ensures |r| == |s| && forall i :: 0 <= i < |s| ==> r[i] == LowerChar(s[i])
  {
    seq(|s|, i requires 0 <= i < |s| => LowerChar(s[i]))
  }

  predicate At(s: string, pattern: string, i: nat) {
    i + |pattern| <= |s| && s[i..i + |pattern|] == pattern
  }

  /** The first occurrence at or after `from`. */
  function Find(s: string, pattern: string, from: nat): (r: Option<nat>)
    ensures r.Some? ==> from <= r.value && r.value + |pattern| <= |s|
    decreases |s| - from
  {
    if from + |pattern| > |s| then None
    else if At(s, pattern, from) then Some(from)
    else Find(s, pattern, from + 1)
  }

  lemma {:induction false} FindMeaning(s: string, pattern: string, from: nat)
    ensures var r := Find(s, pattern, from);
            && (r.Some? ==> At(s, pattern, r.value) && forall i: nat :: from <= i < r.value ==> !At(s, pattern, i))
            && (r.None? ==> forall i: nat :: from <= i ==> !At(s, pattern, i))
    decreases |s| - from
  {
    if from + |pattern| <= |s| && !At(s, pattern, from) {
      FindMeaning(s, pattern, from + 1);
    }
  }

  lemma FindIsThere(s: string, pattern: string, from: nat)
    requires Find(s, pattern, from).Some?
    ensures At(s, pattern, Find(s, pattern, from).value)
  {
    FindMeaning(s, pattern, from);
  }

  /** Only the first occurrence answers a search. */
  lemma FindIs(s: string, pattern: string, from: nat, p: nat)
    requires from <= p && At(s, pattern, p) && forall i: nat :: from <= i < p ==> !At(s, pattern, i)
    ensures Find(s, pattern, from) == Some(p)
  {
    FindMeaning(s, pattern, from);
  }

  /** The last occurrence of a character. */
  function FindLast(s: string, c: char): (r: Option<nat>)
    ensures r.Some? ==> r.value < |s| && s[r.value] == c && c !in s[r.value + 1..]
    ensures r.None? ==> c !in s
  {
    if s == [] then None
    else if s[|s| - 1] == c then Some(|s| - 1)
    else FindLast(s[..|s| - 1], c)
  }

  predicate IsSpace(c: char) { c in {' ', '\t', '\n', '\r', 11 as char, 12 as char} }
  predicate IsDigit(c: char) { '0' <= c <= '9' }

  function DigitValue(c: char): nat requires IsDigit(c) { c as int - '0' as int }

  function SkipSpace(s: string): string {
    if s != [] && IsSpace(s[0]) then SkipSpace(s[1..]) else s
  }

  /** The longest prefix of digits, as a number. */
  function DigitsValue(s: string, acc: nat): nat {
    if s != [] && IsDigit(s[0]) then DigitsValue(s[1..], 10 * acc + DigitValue(s[0])) else acc
  }

  /** std::stoul in base ten: None where it throws. A minus sign negates modulo 2^64. */
  function StoUl(s: string): (r: Option<nat>)
    ensures r.Some? ==> r.value < WORD
  {
    var t := SkipSpace(s);
    var negative := t != [] && t[0] == '-';
    var u := if t != [] && t[0] in {'+', '-'} then t[1..] else t;
    if u == [] || !IsDigit(u[0]) then None
    else
      var v := DigitsValue(u, 0);
      if v >= WORD then None
      else Some(if negative then (WORD - v) % WORD else v)
  }

  /** Decimal notation without leading zeros. */
  function Decimal(n: nat): (s: string)
    ensures s != [] && forall c :: c in s ==> IsDigit(c)
  {
    var d := [(n % 10 + '0' as int) as char];
    if n < 10 then d else Decimal(n / 10) + d
  }

  lemma {:induction false} DigitsValueAppend(a: string, b: string, acc: nat)
    requires forall c :: c in a ==> IsDigit(c)
    ensures DigitsValue(a + b, acc) == DigitsValue(b, DigitsValue(a, acc))
  {
    if a == [] {
      assert a + b == b;
    } else {
      assert (a + b)[1..] == a[1..] + b;
      assert (a + b)[0] == a[0];
      DigitsValueAppend(a[1..], b, 10 * acc + DigitValue(a[0]));
    }
  }

  lemma {:induction false} DecimalValue(n: nat)
    ensures DigitsValue(Decimal(n), 0) == n
    decreases n
  {
    var d := [(n % 10 + '0' as int) as char];
    if n < 10 {
      assert d[1..] == [];
    } else {
      DecimalValue(n / 10);
      DigitsValueAppend(Decimal(n / 10), d, 0);
      assert d[1..] == [];
      assert DigitsValue(d, n / 10) == DigitsValue([], 10 * (n / 10) + n % 10);
    }
  }

  lemma {:induction false} SkipSpaces(pad: string, s: string)
    requires forall c :: c in pad ==> IsSpace(c)
    requires s != [] && !IsSpace(s[0])
    ensures SkipSpace(pad + s) == s
  {
    if pad == [] {
      assert pad + s == s;
    } else {
      assert (pad + s)[1..] == pad[1..] + s;
      SkipSpaces(pad[1..], s);
    }
  }

  lemma {:induction false} ZerosValue(zeros: string)
    requires forall c :: c in zeros ==> c == '0'
    ensures DigitsValue(zeros, 0) == 0
  {
    if zeros != [] {
      assert zeros[0] in zeros && forall c :: c in zeros[1..] ==> c in zeros;
      ZerosValue(zeros[1..]);
    }
  }

  /** stoul reads back any 64-bit number, behind spaces and leading zeros and before anything that is not
      a digit. */
  lemma StoUlReadsDecimal(pad: string, zeros: string, n: nat, rest: string)
    requires n < WORD
    requires (forall c :: c in pad ==> IsSpace(c)) && forall c :: c in zeros ==> c == '0'
    requires rest == [] || !IsDigit(rest[0])
    ensures StoUl(pad + zeros + Decimal(n) + rest) == Some(n)
  {
    var digits := zeros + Decimal(n);
    var u := digits + rest;
    assert pad + zeros + Decimal(n) + rest == pad + u;
    assert u[0] == digits[0] && digits[0] in digits && IsDigit(u[0]);
    SkipSpaces(pad, u);
    ZerosValue(zeros);
    DecimalValue(n);
    DigitsValueAppend(zeros, Decimal(n), 0);
    DigitsValueAppend(digits, rest, 0);
  }

  lemma AtFirst(s: string, pattern: string, i: nat)
    requires pattern != ""
    ensures At(s, pattern, i) ==> s[i] == pattern[0]
  {
    if At(s, pattern, i) { assert s[i] == s[i..i + |pattern|][0]; }
  }

  /** The first separator after `head`, when what lies between does not contain its first character. */
  lemma FindSeparator(head: string, between: string, separator: string, tail: string)
    requires separator != "" && separator[0] !in between
    ensures Find(head + between + separator + tail, separator, |head|) == Some(|head| + |between|)
  {
    var s, p := head + between + separator + tail, |head| + |between|;
    assert s[p..p + |separator|] == separator;
    forall i: nat | |head| <= i < p
      ensures !At(s, separator, i)
    {
      assert s[i] == between[i - |head|];
      AtFirst(s, separator, i);
    }
    FindIs(s, separator, |head|, p);
  }

  lemma FindNothing(s: string, separator: string)
    requires separator != "" && separator[0] !in s
    ensures Find(s, separator, 0) == None
  {
    forall i: nat
      ensures !At(s, separator, i)
    {
      AtFirst(s, separator, i);
    }
    FindMeaning(s, separator, 0);
  }

  lemma {:induction false} FindLastIs(s: string, c: char, p: nat)
    requires p < |s| && s[p] == c && forall k :: p < k < |s| ==> s[k] != c
    ensures FindLast(s, c) == Some(p)
  {
    if p < |s| - 1 { FindLastIs(s[..|s| - 1], c, p); }
  }

  lemma LaterInTail(head: string, c: char, tail: string)
    ensures var s := head + [c] + tail;
            s[|head|] == c && forall k :: |head| < k < |s| ==> s[k] in tail
  {
    var s := head + [c] + tail;
    forall k | |head| < k < |s|
      ensures s[k] in tail
    {
      assert s[k] == tail[k - |head| - 1];
    }
  }

  lemma FindLastSeparator(head: string, c: char, tail: string)
    requires c !in tail
    ensures FindLast(head + [c] + tail, c) == Some(|head|)
  {
    LaterInTail(head, c, tail);
    FindLastIs(head + [c] + tail, c, |head|);
  }

  // ---------------------------------------------------------------------------
  // The same, said without the functions above

  /** The lower-case word, in any mixture of letter cases. */
  predicate Spells(x: string, word: string) {
    |x| == |word| && forall i :: 0 <= i < |x| ==>
      x[i] == word[i] || ('a' <= word[i] <= 'z' && x[i] as int == word[i] as int - 32)
  }

  lemma LowerSpells(x: string, word: string)
    requires forall i :: 0 <= i < |word| ==> !('A' <= word[i] <= 'Z')
    ensures Lower(x) == word <==> Spells(x, word)
  {
    forall i | 0 <= i < |x| && |x| == |word|
      ensures Lower(x)[i] == word[i] <==> x[i] == word[i] || ('a' <= word[i] <= 'z' && x[i] as int == word[i] as int - 32)
    {
      CaseOfLetter(x[i], word[i]);
    }
  }

  lemma CaseOfLetter(c: char, l: char)
    requires !('A' <= l <= 'Z')
    ensures LowerChar(c) == l <==> c == l || ('a' <= l <= 'z' && c as int == l as int - 32)
  {
  }

  /** Decimal notation, digit by digit. */
  lemma DecimalNotation(q: nat, r: nat)
    requires r < 10
    ensures Decimal(10 * q + r) == (if q == 0 then "" else Decimal(q)) + ["0123456789"[r]]
  {
    assert (10 * q + r) / 10 == q && (10 * q + r) % 10 == r;
    assert "0123456789"[r] == (r + '0' as int) as char;
  }

  predicate Blanks(pad: string) {
    forall c :: c in pad ==> c == ' ' || c == '\t' || c == '\n' || c == '\r' || c == '\U{0B}' || c == '\U{0C}'
  }

  lemma SignedNumber(pad: string, sign: string, n: nat, rest: string)
    requires Blanks(pad) && sign in {"", "+", "-"} && (rest == "" || !IsDigit(rest[0]))
    ensures SkipSpace(pad + (sign + (Decimal(n) + rest))) == sign + (Decimal(n) + rest)
    ensures DigitsValue(Decimal(n) + rest, 0) == n
  {
    var u := sign + (Decimal(n) + rest);
    assert Decimal(n)[0] in Decimal(n);
    assert u[0] == (if sign == "" then Decimal(n)[0] else sign[0]);
    SkipSpaces(pad, u);
    DecimalValue(n);
    DigitsValueAppend(Decimal(n), rest, 0);
  }

  /** What stoul makes of any number, signed or not, behind blanks and before anything that is no digit: a
      number of 2^64 or more throws, and a minus sign negates modulo 2^64. */
  lemma StoUlMeaning(pad: string, sign: string, n: nat, rest: string)
    requires Blanks(pad) && sign in {"", "+", "-"} && (rest == "" || !IsDigit(rest[0]))
    ensures StoUl(pad + (sign + (Decimal(n) + rest)))
            == if n >= 0x1_0000_0000_0000_0000 then None
               else if sign == "-" && n > 0 then Some(0x1_0000_0000_0000_0000 - n) else Some(n)
  {
    var digits := Decimal(n) + rest;
    SignedNumber(pad, sign, n, rest);
    assert Decimal(n)[0] in Decimal(n) && digits[0] == Decimal(n)[0];
    SignSplits(sign, digits);
  }

  lemma SignSplits(sign: string, digits: string)
    requires sign in {"", "+", "-"} && digits != "" && IsDigit(digits[0])
    ensures var u := sign + digits;
            && (sign == "" ==> u == digits && u[0] != '-' && u[0] != '+')
            && (sign != "" ==> u[1..] == digits && u[0] == sign[0] && (u[0] == '-' <==> sign == "-"))
  {
  }

  /** Without a digit behind blanks and sign it throws. */
  lemma StoUlThrows(pad: string, sign: string, rest: string)
    requires Blanks(pad) && sign in {"", "+", "-"}
    requires rest == "" || !IsDigit(rest[0])
    requires sign == "" && rest != "" ==> !IsSpace(rest[0]) && rest[0] != '+' && rest[0] != '-'
    ensures StoUl(pad + (sign + rest)) == None
  {
    var u := sign + rest;
    if u == "" {
      OnlyBlanks(pad);
      assert pad + u == pad;
    } else {
      assert u[0] == (if sign == "" then rest[0] else sign[0]);
      SkipSpaces(pad, u);
      if sign == "" { assert u == rest; } else { assert u[1..] == rest; }
    }
  }

  lemma {:induction false} OnlyBlanks(pad: string)
    requires Blanks(pad)
    ensures SkipSpace(pad) == ""
  {
    if pad != "" {
      assert pad[0] in pad && forall c :: c in pad[1..] ==> c in pad;
      OnlyBlanks(pad[1..]);
    }
  }
}

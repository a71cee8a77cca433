/** Strings as the Go and SQL code uses them: joining and splitting, decimal numerals, affixes. */
module Text {
  import opened Wrappers
  import opened Sequences

  // ---- strings.Join and strings.Split -------------------------------------------------------

  function Join(parts: seq<string>, sep: string): string {
    if parts == [] then ""
    else if |parts| == 1 then parts[0]
    else parts[0] + sep + Join(parts[1..], sep)
  }

  /** Split at every occurrence of one separating character. */
  function Split(s: string, sep: char): (parts: seq<string>)
    ensures |parts| > 0
    ensures forall p :: p in parts ==> sep !in p
  {
    if s == "" then [""]
    else if s[0] == sep then [""] + Split(s[1..], sep)
    else
      var rest := Split(s[1..], sep);
      [[s[0]] + rest[0]] + rest[1..]
  }

  lemma {:induction false} SplitWhole(s: string, sep: char)
    requires sep !in s
    ensures Split(s, sep) == [s]
  {
    if s != "" {
      SplitWhole(s[1..], sep);
      assert [s[0]] + s[1..] == s;
    }
  }

  lemma {:induction false} SplitAtFirst(s: string, sep: char, rest: string)
    requires sep !in s
    ensures Split(s + [sep] + rest, sep) == [s] + Split(rest, sep)
  {
    var whole := s + [sep] + rest;
    if s == "" {
      assert whole == [sep] + rest;
      assert whole[1..] == rest;
    } else {
      assert whole[1..] == s[1..] + [sep] + rest;
      SplitAtFirst(s[1..], sep, rest);
      assert [s[0]] + s[1..] == s;
    }
  }

  /** Splitting undoes joining when no part holds the separator. */
  lemma {:induction false} SplitJoin(parts: seq<string>, sep: char)
    requires parts != []
    requires forall p :: p in parts ==> sep !in p
    ensures Split(Join(parts, [sep]), sep) == parts
  {
    if |parts| == 1 {
      SplitWhole(parts[0], sep);
      assert parts == [parts[0]];
    } else {
      SplitJoin(parts[1..], sep);
      SplitAtFirst(parts[0], sep, Join(parts[1..], [sep]));
      assert parts == [parts[0]] + parts[1..];
    }
  }

  // ---- strings.HasPrefix, HasSuffix, TrimSuffix ---------------------------------------------

  predicate HasPrefix(s: string, prefix: string) {
    prefix <= s
  }

  predicate HasSuffix(s: string, suffix: string) {
    |suffix| <= |s| && s[|s| - |suffix|..] == suffix
  }

  function TrimSuffix(s: string, suffix: string): (r: string)
    ensures HasSuffix(s, suffix) ==> r + suffix == s
    ensures !HasSuffix(s, suffix) ==> r == s
  {
    if HasSuffix(s, suffix) then s[..|s| - |suffix|] else s
  }

  // ---- decimal numerals: fmt's %d and strconv.ParseInt ---------------------------------------

  predicate IsDigit(c: char) {
    '0' <= c <= '9'
  }

  function DigitValue(c: char): (d: nat)
    requires IsDigit(c)
    ensures d < 10
  {
    c as int - '0' as int
  }

  function NatString(n: nat): (s: string)
    ensures s != "" && forall c :: c in s ==> IsDigit(c)
  {
    var last := [(('0' as int) + n % 10) as char];
    if n < 10 then last else NatString(n / 10) + last
  }

  function IntString(n: int): string {
    if n < 0 then "-" + NatString(-n) else NatString(n)
  }

  function DigitsValue(s: string): nat
    requires forall c :: c in s ==> IsDigit(c)
  {
    if s == "" then 0 else 10 * DigitsValue(s[..|s| - 1]) + DigitValue(s[|s| - 1])
  }

  lemma {:induction false} DigitsOfNat(n: nat)
    ensures DigitsValue(NatString(n)) == n
  {
    if n >= 10 {
      DigitsOfNat(n / 10);
      var last := [(('0' as int) + n % 10) as char];
      assert (NatString(n / 10) + last)[..|NatString(n / 10)|] == NatString(n / 10);
    }
  }

  datatype NumberError = Syntax | OutOfRange

  const TWO_63: int := 0x8000_0000_0000_0000
  const TWO_64: int := 0x1_0000_0000_0000_0000

  /** strconv.ParseUint(s, 10, 64) */
  function ParseUint(s: string): (r: Result<nat, NumberError>)
    ensures r.Ok? ==> r.value < TWO_64
  {
    if s == "" || (exists c :: c in s && !IsDigit(c)) then Err(Syntax)
    else if DigitsValue(s) >= TWO_64 then Err(OutOfRange)
    else Ok(DigitsValue(s))
  }

  /** strconv.ParseInt(s, 10, 64) */
  function ParseInt(s: string): (r: Result<int, NumberError>)
    ensures r.Ok? ==> -TWO_63 <= r.value < TWO_63
  {
    if s == "" then Err(Syntax)
    else
      var neg := s[0] == '-';
      var digits := if s[0] == '-' || s[0] == '+' then s[1..] else s;
      match ParseUint(digits)
      case Err(e) => Err(e)
      case Ok(n) =>
        var un: int := n;
        if !neg && un >= TWO_63 then Err(OutOfRange)
        else if neg && un > TWO_63 then Err(OutOfRange)
        else Ok(if neg then -un else un)
  }

  /** Printing a 64-bit integer and parsing it back is the identity; anything wider is refused. */
  lemma ParseIntOfIntString(n: int)
    ensures ParseInt(IntString(n)) == if -TWO_63 <= n < TWO_63 then Ok(n) else Err(OutOfRange)
  {
    DigitsOfNat(if n < 0 then -n else n);
    if n < 0 {
      assert IntString(n)[1..] == NatString(-n);
    } else {
      assert IsDigit(NatString(n)[0]);
    }
  }

  lemma ParseUintOfNatString(n: nat)
    ensures ParseUint(NatString(n)) == if n < TWO_64 then Ok(n) else Err(OutOfRange)
  {
    DigitsOfNat(n);
  }
}

/** Sparse channel keys: parseSparseIndex (internal/domain/payload.go) and the printer it has to undo,
    strconv.FormatInt as internal/presentation/presentation.go uses it. */
module Decimal {
  import opened Basics

  datatype KeyError = NotCanonical | OutsideCube

  const ZERO: byte := 48
  const NINE: byte := 57

  predicate IsDigit(b: byte) {
    ZERO <= b <= NINE
  }

  /** strconv.FormatInt(n, 10) of a non-negative number. */
  function Print(n: nat): (s: Bytes) {
    if n < 10 then [ZERO + n as byte] else Print(n / 10) + [ZERO + (n % 10) as byte]
  }

  predicate AllDigits(s: Bytes) {
    forall i :: 0 <= i < |s| ==> IsDigit(s[i])
  }

  function ValueOf(s: Bytes): nat
    requires AllDigits(s)
  {
    if s == [] then 0 else 10 * ValueOf(s[..|s| - 1]) + (s[|s| - 1] - ZERO) as int
  }

  /** strconv.ParseInt(s, 10, 64) of a string of digits: the value, or a range error. */
  function ParseInt64(s: Bytes): Option<int>
    requires AllDigits(s)
  {
    if ValueOf(s) <= MAX_INT64 then Some(ValueOf(s)) else None
  }

  predicate Canonical(s: Bytes) {
    s != [] && (|s| == 1 || s[0] != ZERO) && AllDigits(s)
  }

  lemma {:induction false} PrintIsCanonical(n: nat)
    ensures Canonical(Print(n)) && ValueOf(Print(n)) == n
    ensures n > 0 ==> Print(n)[0] != ZERO
  {
    if n >= 10 {
      PrintIsCanonical(n / 10);
      var s := Print(n);
      assert s[..|s| - 1] == Print(n / 10);
    } else {
      assert Print(n)[..0] == [];
    }
  }

  lemma {:induction false} CanonicalIsPrint(s: Bytes)
    requires Canonical(s)
    ensures Print(ValueOf(s)) == s
  {
    var init := s[..|s| - 1];
    if init != [] {
      CanonicalIsPrint(init);
      assert s == init + [s[|s| - 1]];
    }
  }

  /** Decimal notation: one more digit is ten times the number plus the digit, and the digits are those of ASCII. */
  lemma PrintAppends(n: nat, d: nat)
    requires d < 10
    ensures Print(d) == [(48 + d) as byte]
    ensures n > 0 ==> Print(10 * n + d) == Print(n) + [(48 + d) as byte]
  {
  }

  lemma PrintInjective(m: nat, n: nat)
    requires Print(m) == Print(n)
    ensures m == n
  {
    PrintIsCanonical(m);
    PrintIsCanonical(n);
  }

  /** A key is accepted exactly when it is the printing of an index inside the cube, and then it is that index: two
      different keys never address one cell. A value past int64 is refused like any other outside the cube. */
  method ParseSparseIndex(key: Bytes, count: int) returns (r: Result<int, KeyError>)
    requires count <= MAX_INT64
    ensures r.Ok? ==> 0 <= r.value < count && key == Print(r.value)
    ensures forall i :: 0 <= i < count && key == Print(i) ==> r == Ok(i)
    ensures r == Err(NotCanonical) <==> !Canonical(key)
  {
    if Canonical(key) {
      CanonicalIsPrint(key);
    }
    forall i: nat | key == Print(i) ensures Canonical(key) && ValueOf(key) == i {
      PrintIsCanonical(i);
    }
    if key == [] || (|key| > 1 && key[0] == ZERO) {
      return Err(NotCanonical);
    }
    for i := 0 to |key|
      invariant AllDigits(key[..i])
    {
      if key[i] < ZERO || key[i] > NINE {
        return Err(NotCanonical);
      }
    }
    assert key[..|key|] == key;
    var parsed := ParseInt64(key);
    if parsed.None? || parsed.value < 0 || parsed.value >= count {
      return Err(OutsideCube);
    }
    return Ok(parsed.value);
  }
}

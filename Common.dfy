/** Shared value types and small text utilities used across the model. */
module Common {

  datatype Option<+T> = None | Some(value: T)

  datatype Result<+T, +E> = Ok(value: T) | Err(error: E)

  function Max(a: int, b: int): int { if a >= b then a else b }
  function Min(a: int, b: int): int { if a <= b then a else b }

  /** An octet, as held by a Uint8Array or a Python `bytes` object. */
  type byte = x: int | 0 <= x < 256

  /** The floats `new Float32Array(buffer)` reads from an ArrayBuffer's bytes (IEEE 754
      reinterpretation, not modelled). The constructor throws a RangeError unless the
      byte length is a multiple of four, which callers check. */
  type FloatDecoder = seq<byte> -> seq<real>

  /** Three consecutive writes into a typed array: `a[at] = x; a[at + 1] = y; a[at + 2] = z`. */
  method Store3<T>(a: array<T>, at: nat, x: T, y: T, z: T)
    requires at + 3 <= a.Length
    modifies a
    ensures a[at] == x && a[at + 1] == y && a[at + 2] == z
    ensures forall j :: 0 <= j < a.Length && (j < at || at + 3 <= j) ==> a[j] == old(a[j])
  {
    a[at] := x;
    a[at + 1] := y;
    a[at + 2] := z;
  }

  lemma AppendAssoc<T>(a: seq<T>, b: seq<T>, c: seq<T>)
    ensures a + (b + c) == (a + b) + c
  {
  }

  /** A prefix one longer is the prefix and the next element. */
  lemma TakeNext<T>(s: seq<T>, j: nat)
    requires j < |s|
    ensures s[..j + 1] == s[..j] + [s[j]]
  {
  }

  /** Dropping the last element of `a + b`, `b` not empty, drops it from `b`. */
  lemma DropLastOfAppend<T>(a: seq<T>, b: seq<T>)
    requires |b| > 0
    ensures (a + b)[..|a + b| - 1] == a + b[..|b| - 1] && (a + b)[|a + b| - 1] == b[|b| - 1]
  {
  }

  /** Slices of a suffix `q0[d..]` in terms of `q0`. */
  lemma SuffixSlices<T>(q0: seq<T>, d: nat, k: nat, b: nat)
    requires k <= b && d + b <= |q0|
    ensures q0[d..][..k] == q0[d..d + k] && q0[..d + k] == q0[..d] + q0[d..][..k]
    ensures q0[d..][b..] == q0[d + b..]
  {
  }

  /** A prefix of a prefix is a prefix. */
  lemma TakeOfTake<T>(s: seq<T>, j: nat, k: nat)
    requires k <= j <= |s|
    ensures s[..j][..k] == s[..k]
  {
  }

  // ---------------------------------------------------------------------------
  // Insertion-ordered sets (a JavaScript `Set` converted back with Array.from)
  // ---------------------------------------------------------------------------

  predicate NoDuplicates<T(==)>(s: seq<T>) {
    forall i, j :: 0 <= i < j < |s| ==> s[i] != s[j]
  }

  /** The distinct elements of `s` in order of first occurrence:
      `Array.from(new Set(s))`. */
  function Unique<T(==)>(s: seq<T>): (u: seq<T>)
    decreases |s|
  {
    if |s| == 0 then []
    else
      var u0 := Unique(s[..|s| - 1]);
      if s[|s| - 1] in u0 then u0 else u0 + [s[|s| - 1]]
  }

  /** Unique keeps exactly the elements of its input, each once. */
  lemma {:induction false} UniqueProperties<T>(s: seq<T>)
    ensures NoDuplicates(Unique(s))
    ensures forall x :: x in Unique(s) <==> x in s
    decreases |s|
  {
    if |s| > 0 {
      UniqueProperties(s[..|s| - 1]);
      assert forall x :: x in s <==> x in s[..|s| - 1] || x == s[|s| - 1] by {
        assert s == s[..|s| - 1] + [s[|s| - 1]];
      }
    }
  }

  /** Adding elements to a set never removes or reorders what was there:
      Unique(a) is a prefix of Unique(a + b). */
  lemma {:induction false} UniquePrefix<T>(a: seq<T>, b: seq<T>)
    ensures |Unique(a)| <= |Unique(a + b)|
    ensures Unique(a + b)[..|Unique(a)|] == Unique(a)
    decreases |b|
  {
    if |b| == 0 {
      assert a + b == a;
    } else {
      var b0 := b[..|b| - 1];
      UniquePrefix(a, b0);
      assert (a + b)[..|a + b| - 1] == a + b0;
    }
  }

  /** A list that already has no duplicates is its own set. */
  lemma {:induction false} UniqueOfDistinct<T>(s: seq<T>)
    requires NoDuplicates(s)
    ensures Unique(s) == s
    decreases |s|
  {
    if |s| > 0 {
      var s0 := s[..|s| - 1];
      UniqueOfDistinct(s0);
      UniqueProperties(s0);
      assert s[|s| - 1] !in s0;
      assert s == s0 + [s[|s| - 1]];
    }
  }

  /** Rebuilding the set from its own list and adding more elements is the same as
      building it from everything at once: `new Set(Array.from(new Set(a)))` then
      adding `b` one by one. */
  lemma {:induction false} UniqueOfUniqueAppend<T>(a: seq<T>, b: seq<T>)
    ensures Unique(Unique(a) + b) == Unique(a + b)
    decreases |b|
  {
    if |b| == 0 {
      UniqueProperties(a);
      UniqueOfDistinct(Unique(a));
      assert Unique(a) + b == Unique(a) && a + b == a;
    } else {
      var b0 := b[..|b| - 1];
      UniqueOfUniqueAppend(a, b0);
      assert (Unique(a) + b)[..|Unique(a) + b| - 1] == Unique(a) + b0;
      assert (a + b)[..|a + b| - 1] == a + b0;
    }
  }

  /** Building the set of a set gives it back. */
  lemma UniqueIdempotent<T>(s: seq<T>)
    ensures Unique(Unique(s)) == Unique(s)
  {
    UniqueProperties(s);
    UniqueOfDistinct(Unique(s));
  }

  /** A list is its own set exactly when it holds no element twice. */
  lemma UniqueFixedPoint<T>(s: seq<T>)
    ensures Unique(s) == s <==> NoDuplicates(s)
  {
    UniqueProperties(s);
    if NoDuplicates(s) {
      UniqueOfDistinct(s);
    }
  }

  // ---------------------------------------------------------------------------
  // Decimal formatting of integers (Python `f"{n}"`, JavaScript `${n}`)
  // ---------------------------------------------------------------------------

  predicate IsDigit(c: char) { '0' as int <= c as int <= '9' as int }

  function DigitChar(d: nat): (c: char)
    requires d < 10
    ensures IsDigit(c) && (c as int) - ('0' as int) == d
  {
    (('0' as int) + d) as char
  }

  /** Decimal digits of `n`, most significant first, without leading zeros. */
  function NatToString(n: nat): (s: string)
    ensures |s| >= 1 && forall c :: c in s ==> IsDigit(c)
    decreases n
  {
    if n < 10 then [DigitChar(n)] else NatToString(n / 10) + [DigitChar(n % 10)]
  }

  /** Value of a digit string read most significant first. */
  function DigitsValue(s: string): nat
    requires forall c :: c in s ==> IsDigit(c)
    decreases |s|
  {
    if |s| == 0 then 0
    else
      assert s[|s| - 1] in s && IsDigit(s[|s| - 1]);
      DigitsValue(s[..|s| - 1]) * 10 + ((s[|s| - 1] as int) - ('0' as int))
  }

  /** Reading back a formatted natural number gives the number. */
  lemma {:induction false} DigitsValueOfNatToString(n: nat)
    ensures DigitsValue(NatToString(n)) == n
    decreases n
  {
    if n >= 10 {
      DigitsValueOfNatToString(n / 10);
      var s := NatToString(n);
      assert s[..|s| - 1] == NatToString(n / 10);
    }
  }

  /** `str(i)` for a Python int, `${i}` for an integral JavaScript number. */
  function IntToString(i: int): (s: string)
    ensures |s| >= 1 && '_' !in s
    ensures forall c :: c in s ==> IsDigit(c) || c == '-'
  {
    if i < 0 then "-" + NatToString(-i) else NatToString(i)
  }

  lemma SignCharacter(i: int)
    ensures IntToString(i)[0] == '-' <==> i < 0
  {
    if i >= 0 {
      assert IntToString(i)[0] in NatToString(i);
    }
  }

  /** Distinct integers are printed differently. */
  lemma IntToStringInjective(a: int, b: int)
    requires IntToString(a) == IntToString(b)
    ensures a == b
  {
    var s := IntToString(a);
    SignCharacter(a);
    SignCharacter(b);
    if a < 0 {
      assert NatToString(-a) == s[1..] == NatToString(-b);
      DigitsValueOfNatToString(-a);
      DigitsValueOfNatToString(-b);
    } else {
      DigitsValueOfNatToString(a);
      DigitsValueOfNatToString(b);
    }
  }

  // ---------------------------------------------------------------------------
  // Tile identifiers: f"{tx}_{ty}"
  // ---------------------------------------------------------------------------

  /** `f"{tx}_{ty}"`: digits, minus signs and one separator, so never a path separator. */
  function TileId(tx: int, ty: int): (id: string)
    ensures '/' !in id
  {
    IntToString(tx) + "_" + IntToString(ty)
  }

  /** Position of the first '_' in `s` (|s| when there is none). */
  function FirstSeparator(s: string): nat
    decreases |s|
  {
    if |s| == 0 || s[0] == '_' then 0 else 1 + FirstSeparator(s[1..])
  }

  lemma {:induction false} FirstSeparatorAfter(a: string, b: string)
    requires '_' !in a
    ensures FirstSeparator(a + "_" + b) == |a|
    decreases |a|
  {
    if |a| > 0 {
      assert (a + "_" + b)[1..] == a[1..] + "_" + b;
      FirstSeparatorAfter(a[1..], b);
    }
  }

  lemma SplitAtSeparator(a: string, b: string, c: string, d: string)
    requires '_' !in a && '_' !in c
    requires a + "_" + b == c + "_" + d
    ensures a == c && b == d
  {
    var s := a + "_" + b;
    FirstSeparatorAfter(a, b);
    FirstSeparatorAfter(c, d);
    assert a == s[..|a|] == c;
    assert b == s[|a| + 1..] == d;
  }

  /** Where two joins of strings agree and the first has the shorter tail, its
      separator falls inside the longer tail. */
  lemma SeparatorInLongerTail(a: string, b: string, c: string, d: string)
    requires a + "_" + b == c + "_" + d
    ensures |b| < |d| ==> d[|d| - 1 - |b|] == '_'
  {
    if |b| < |d| {
      var s := a + "_" + b;
      assert s[|s| - 1 - |b|] == '_';
      assert s[|s| - 1 - |b|] == d[|d| - 1 - |b|];
    }
  }

  /** A string joined at its last separator splits back into its two parts. */
  lemma SplitAtLastSeparator(a: string, b: string, c: string, d: string)
    requires '_' !in b && '_' !in d
    requires a + "_" + b == c + "_" + d
    ensures a == c && b == d
  {
    var s := a + "_" + b;
    SeparatorInLongerTail(a, b, c, d);
    SeparatorInLongerTail(c, d, a, b);
    assert b == s[|s| - |b|..] == d;
    assert a == s[..|a|] == c;
  }

  /** Distinct tile coordinates get distinct identifiers. */
  lemma TileIdInjective(tx: int, ty: int, tx': int, ty': int)
    requires TileId(tx, ty) == TileId(tx', ty')
    ensures tx == tx' && ty == ty'
  {
    SplitAtSeparator(IntToString(tx), IntToString(ty), IntToString(tx'), IntToString(ty'));
    IntToStringInjective(tx, tx');
    IntToStringInjective(ty, ty');
  }
}

/**
 * The digit classes of Python's `str` methods and of `int()`, from the
 * Unicode 15.0 character database that Python 3.12 ships: `str.isdigit`
 * accepts every character whose numeric type is Decimal or Digit, while
 * `int()` reads only the Decimal ones (general category Nd), which come in
 * runs of ten, zero to nine.
 */
module Digits {
  import opened Wrappers

  /** How `str.isdigit` and `int()` see one character. */
  datatype DigitClass =
    | Decimal(value: nat)   // a decimal digit (Nd) of this value
    | OtherDigit            // a digit `int()` refuses: superscripts, subscripts, circled forms and the like
    | NotDigit

  /**
   * The digits of Unicode 15.0 come in 88 blocks of consecutive code points,
   * numbered in increasing order: runs of ten decimal digits, and stretches
   * of other digits.
   */
  const BlockCount := 88

  /** The first code point of block `k`. */
  function BlockLo(k: nat): int
  {
    if k == 0 then 0x30
    else if k == 1 then 0xB2
    else if k == 2 then 0xB9
    else if k == 3 then 0x660
    else if k == 4 then 0x6F0
    else if k == 5 then 0x7C0
    else if k == 6 then 0x966
    else if k == 7 then 0x9E6
    else if k == 8 then 0xA66
    else if k == 9 then 0xAE6
    else if k == 10 then 0xB66
    else if k == 11 then 0xBE6
    else if k == 12 then 0xC66
    else if k == 13 then 0xCE6
    else if k == 14 then 0xD66
    else if k == 15 then 0xDE6
    else if k == 16 then 0xE50
    else if k == 17 then 0xED0
    else if k == 18 then 0xF20
    else if k == 19 then 0x1040
    else if k == 20 then 0x1090
    else if k == 21 then 0x1369
    else if k == 22 then 0x17E0
    else if k == 23 then 0x1810
    else if k == 24 then 0x1946
    else if k == 25 then 0x19D0
    else if k == 26 then 0x19DA
    else if k == 27 then 0x1A80
    else if k == 28 then 0x1A90
    else if k == 29 then 0x1B50
    else if k == 30 then 0x1BB0
    else if k == 31 then 0x1C40
    else if k == 32 then 0x1C50
    else if k == 33 then 0x2070
    else if k == 34 then 0x2074
    else if k == 35 then 0x2080
    else if k == 36 then 0x2460
    else if k == 37 then 0x2474
    else if k == 38 then 0x2488
    else if k == 39 then 0x24EA
    else if k == 40 then 0x24F5
    else if k == 41 then 0x24FF
    else if k == 42 then 0x2776
    else if k == 43 then 0x2780
    else if k == 44 then 0x278A
    else if k == 45 then 0xA620
    else if k == 46 then 0xA8D0
    else if k == 47 then 0xA900
    else if k == 48 then 0xA9D0
    else if k == 49 then 0xA9F0
    else if k == 50 then 0xAA50
    else if k == 51 then 0xABF0
    else if k == 52 then 0xFF10
    else if k == 53 then 0x104A0
    else if k == 54 then 0x10A40
    else if k == 55 then 0x10D30
    else if k == 56 then 0x10E60
    else if k == 57 then 0x11052
    else if k == 58 then 0x11066
    else if k == 59 then 0x110F0
    else if k == 60 then 0x11136
    else if k == 61 then 0x111D0
    else if k == 62 then 0x112F0
    else if k == 63 then 0x11450
    else if k == 64 then 0x114D0
    else if k == 65 then 0x11650
    else if k == 66 then 0x116C0
    else if k == 67 then 0x11730
    else if k == 68 then 0x118E0
    else if k == 69 then 0x11950
    else if k == 70 then 0x11C50
    else if k == 71 then 0x11D50
    else if k == 72 then 0x11DA0
    else if k == 73 then 0x11F50
    else if k == 74 then 0x16A60
    else if k == 75 then 0x16AC0
    else if k == 76 then 0x16B50
    else if k == 77 then 0x1D7CE
    else if k == 78 then 0x1D7D8
    else if k == 79 then 0x1D7E2
    else if k == 80 then 0x1D7EC
    else if k == 81 then 0x1D7F6
    else if k == 82 then 0x1E140
    else if k == 83 then 0x1E2F0
    else if k == 84 then 0x1E4F0
    else if k == 85 then 0x1E950
    else if k == 86 then 0x1F100
    else 0x1FBF0
  }

  /** The last code point of block `k` when it holds other digits (a decimal run ends nine after its zero). */
  function OtherHi(k: nat): int
  {
    if k == 0 then 0x39
    else if k == 1 then 0xB3
    else if k == 2 then 0xB9
    else if k == 3 then 0x669
    else if k == 4 then 0x6F9
    else if k == 5 then 0x7C9
    else if k == 6 then 0x96F
    else if k == 7 then 0x9EF
    else if k == 8 then 0xA6F
    else if k == 9 then 0xAEF
    else if k == 10 then 0xB6F
    else if k == 11 then 0xBEF
    else if k == 12 then 0xC6F
    else if k == 13 then 0xCEF
    else if k == 14 then 0xD6F
    else if k == 15 then 0xDEF
    else if k == 16 then 0xE59
    else if k == 17 then 0xED9
    else if k == 18 then 0xF29
    else if k == 19 then 0x1049
    else if k == 20 then 0x1099
    else if k == 21 then 0x1371
    else if k == 22 then 0x17E9
    else if k == 23 then 0x1819
    else if k == 24 then 0x194F
    else if k == 25 then 0x19D9
    else if k == 26 then 0x19DA
    else if k == 27 then 0x1A89
    else if k == 28 then 0x1A99
    else if k == 29 then 0x1B59
    else if k == 30 then 0x1BB9
    else if k == 31 then 0x1C49
    else if k == 32 then 0x1C59
    else if k == 33 then 0x2070
    else if k == 34 then 0x2079
    else if k == 35 then 0x2089
    else if k == 36 then 0x2468
    else if k == 37 then 0x247C
    else if k == 38 then 0x2490
    else if k == 39 then 0x24EA
    else if k == 40 then 0x24FD
    else if k == 41 then 0x24FF
    else if k == 42 then 0x277E
    else if k == 43 then 0x2788
    else if k == 44 then 0x2792
    else if k == 45 then 0xA629
    else if k == 46 then 0xA8D9
    else if k == 47 then 0xA909
    else if k == 48 then 0xA9D9
    else if k == 49 then 0xA9F9
    else if k == 50 then 0xAA59
    else if k == 51 then 0xABF9
    else if k == 52 then 0xFF19
    else if k == 53 then 0x104A9
    else if k == 54 then 0x10A43
    else if k == 55 then 0x10D39
    else if k == 56 then 0x10E68
    else if k == 57 then 0x1105A
    else if k == 58 then 0x1106F
    else if k == 59 then 0x110F9
    else if k == 60 then 0x1113F
    else if k == 61 then 0x111D9
    else if k == 62 then 0x112F9
    else if k == 63 then 0x11459
    else if k == 64 then 0x114D9
    else if k == 65 then 0x11659
    else if k == 66 then 0x116C9
    else if k == 67 then 0x11739
    else if k == 68 then 0x118E9
    else if k == 69 then 0x11959
    else if k == 70 then 0x11C59
    else if k == 71 then 0x11D59
    else if k == 72 then 0x11DA9
    else if k == 73 then 0x11F59
    else if k == 74 then 0x16A69
    else if k == 75 then 0x16AC9
    else if k == 76 then 0x16B59
    else if k == 77 then 0x1D7D7
    else if k == 78 then 0x1D7E1
    else if k == 79 then 0x1D7EB
    else if k == 80 then 0x1D7F5
    else if k == 81 then 0x1D7FF
    else if k == 82 then 0x1E149
    else if k == 83 then 0x1E2F9
    else if k == 84 then 0x1E4F9
    else if k == 85 then 0x1E959
    else if k == 86 then 0x1F10A
    else 0x1FBF9
  }

  /** Block `k` holds digits that are not decimal. */
  predicate OtherBlock(k: nat)
  {
    k == 1 || k == 2 || k == 21 || k == 26 || k == 33 || k == 34 || k == 35 || k == 36
    || k == 37 || k == 38 || k == 39 || k == 40 || k == 41 || k == 42 || k == 43 || k == 44
    || k == 54 || k == 56 || k == 57 || k == 86
  }

  /** The class of code point `n`, looking from block `k` on. */
  function ClassFrom(n: int, k: nat): (r: DigitClass)
    requires k <= BlockCount
    ensures r.Decimal? ==> r.value <= 9
    decreases BlockCount - k
  {
    if k == BlockCount || n < BlockLo(k) then NotDigit
    else if OtherBlock(k) then (if n <= OtherHi(k) then OtherDigit else ClassFrom(n, k + 1))
    else if n <= BlockLo(k) + 9 then Decimal(n - BlockLo(k))
    else ClassFrom(n, k + 1)
  }

  /** The class of `c`, by code point. */
  function ClassOf(c: char): (r: DigitClass)
    ensures r.Decimal? ==> r.value <= 9
    ensures '0' <= c <= '9' ==> r == Decimal(c as int - '0' as int)
  {
    ClassFrom(c as int, 0)
  }

  /** `c.isdigit()`. */
  predicate IsDigit(c: char)
  {
    !ClassOf(c).NotDigit?
  }

  /** A digit `int()` reads. */
  predicate IsDecimal(c: char)
  {
    ClassOf(c).Decimal?
  }

  /** `s.isdigit()`: not empty, and every character a digit. */
  predicate IsDigits(s: string)
  {
    |s| > 0 && AllDigits(s)
  }

  /** Every character of `s` is a digit to `isdigit`. */
  predicate AllDigits(s: string)
  {
    s == [] || (IsDigit(s[|s| - 1]) && AllDigits(s[..|s| - 1]))
  }

  /** How `int()` sees one character of the digit part of a literal. */
  datatype Symbol =
    | Dec(value: nat)   // a decimal digit of this value
    | Underscore        // the separator '_'
    | Stray             // anything else

  /** The symbol `int()` sees in `c`. */
  function SymbolOf(c: char): (r: Symbol)
    ensures r.Dec? <==> IsDecimal(c)
    ensures r.Dec? ==> r.value <= 9 && ClassOf(c) == Decimal(r.value)
    ensures r.Underscore? <==> c == '_'
  {
    if c == '_' then
      assert !IsDecimal(c);
      Underscore
    else if IsDecimal(c) then Dec(ClassOf(c).value)
    else Stray
  }

  /** The symbols of `s`, one per character. */
  function Symbols(s: string): (r: seq<Symbol>)
    ensures |r| == |s|
    ensures forall i :: 0 <= i < |s| ==> r[i] == SymbolOf(s[i])
  {
    if s == [] then [] else Symbols(s[..|s| - 1]) + [SymbolOf(s[|s| - 1])]
  }

  /** The symbols before the last one, without the one underscore that may end them. */
  function Lead(x: seq<Symbol>): (r: seq<Symbol>)
    requires |x| >= 2
    ensures r == x[..|x| - 1] || r == x[..|x| - 2]
  {
    if x[|x| - 2] == Underscore then x[..|x| - 2] else x[..|x| - 1]
  }

  /**
   * The number a run of symbols spells, most significant digit first, with
   * an underscore allowed only between two digits; `None` where `int()`
   * raises `ValueError`.
   */
  function ReadSymbols(x: seq<Symbol>): (r: Option<nat>)
    ensures r.Some? ==> |x| > 0 && x[0].Dec? && x[|x| - 1].Dec?
    decreases |x|
  {
    if x == [] || !x[|x| - 1].Dec? then None
    else if |x| == 1 then Some(x[0].value)
    else
      match ReadSymbols(Lead(x))
      case Some(m) =>
        assert Lead(x)[0] == x[0];
        Some(m * 10 + x[|x| - 1].value)
      case None => None
  }

  /**
   * `int()` of the digit part of a base-ten literal: decimal digits of any
   * script, with single underscores between them.
   */
  function ReadDecimal(s: string): (r: Option<nat>)
    ensures r.Some? ==> |s| > 0 && IsDecimal(s[0]) && IsDecimal(s[|s| - 1])
  {
    ReadSymbols(Symbols(s))
  }

  /** Symbols are read character by character. */
  lemma SymbolsAppend(a: string, b: string)
    ensures Symbols(a + b) == Symbols(a) + Symbols(b)
  {
    var l, r := Symbols(a + b), Symbols(a) + Symbols(b);
    assert forall i :: 0 <= i < |l| ==> l[i] == r[i] by {
      forall i | 0 <= i < |l|
        ensures l[i] == r[i]
      {
        if i < |a| {
          assert (a + b)[i] == a[i];
        } else {
          assert (a + b)[i] == b[i - |a|];
        }
      }
    }
  }

  /** Symbols put in front do not change the lead of a run of two or more. */
  lemma LeadJoin(x: seq<Symbol>, y: seq<Symbol>)
    requires |y| >= 2
    ensures Lead(x + y) == x + Lead(y)
  {
    var t := x + y;
    assert t[|t| - 2] == y[|y| - 2];
    assert t[..|t| - 1] == x + y[..|y| - 1];
    assert t[..|t| - 2] == x + y[..|y| - 2];
  }

  /** Arabic-Indic three is a decimal three; superscript two is a digit `int()` refuses. */
  lemma DigitSamples()
    ensures ClassOf('\U{663}') == Decimal(3)
    ensures IsDigit('\U{B2}') && !IsDecimal('\U{B2}')
    ensures !IsDigit('_')
  {
  }

  /** `int("1_000")` is 1000. */
  lemma UnderscoreSamples()
    ensures ReadDecimal("1_000") == Some(1000)
  {
    var one, u, zero := Dec(1), Underscore, Dec(0);
    assert Symbols("1_000") == [one, u, zero, zero, zero];
    assert ReadSymbols([one, u, zero]) == Some(10) by {
      assert Lead([one, u, zero]) == [one];
    }
    assert ReadSymbols([one, u, zero, zero]) == Some(100) by {
      assert Lead([one, u, zero, zero]) == [one, u, zero];
    }
    assert Lead([one, u, zero, zero, zero]) == [one, u, zero, zero];
  }

  /** A doubled, leading or trailing underscore is refused. */
  lemma MisplacedUnderscores()
    ensures ReadDecimal("1__0").None? && ReadDecimal("_1").None? && ReadDecimal("1_").None?
  {
    var one, u, zero := Dec(1), Underscore, Dec(0);
    assert Symbols("1__0") == [one, u, u, zero];
    assert Lead([one, u, u, zero]) == [one, u];
    assert Symbols("_1") == [u, one];
    assert Lead([u, one]) == [];
    assert Symbols("1_") == [one, u];
  }

  /** One step of reading: the lead's number, then the last digit. */
  lemma ReadStep(x: seq<Symbol>)
    requires |x| >= 2 && x[|x| - 1].Dec?
    ensures ReadSymbols(x) ==
      if ReadSymbols(Lead(x)).Some? then Some(ReadSymbols(Lead(x)).value * 10 + x[|x| - 1].value) else None
  {
  }

  /** An underscore between two readable runs of symbols changes no value. */
  lemma {:induction false} UnderscoreIgnoredSymbols(x: seq<Symbol>, y: seq<Symbol>)
    requires ReadSymbols(x).Some? && ReadSymbols(y).Some?
    ensures ReadSymbols(x + [Underscore] + y) == ReadSymbols(x + y)
    decreases |y|
  {
    var s, t := x + [Underscore] + y, x + y;
    var d := y[|y| - 1];
    assert s[|s| - 1] == d && t[|t| - 1] == d;
    ReadStep(s);
    ReadStep(t);
    if |y| == 1 {
      assert Lead(s) == x by {
        assert s[|s| - 2] == Underscore && s[..|s| - 2] == x;
      }
      assert Lead(t) == x by {
        assert t[|t| - 2] == x[|x| - 1] && t[..|t| - 1] == x;
      }
    } else {
      ReadStep(y);
      UnderscoreIgnoredSymbols(x, Lead(y));
      LeadJoin(x + [Underscore], y);
      LeadJoin(x, y);
    }
  }

  /** An underscore between two numerals `int()` reads changes no value. */
  lemma UnderscoreIgnored(a: string, b: string)
    requires ReadDecimal(a).Some? && ReadDecimal(b).Some?
    ensures ReadDecimal(a + ['_'] + b) == ReadDecimal(a + b)
  {
    SymbolsAppend(a + ['_'], b);
    SymbolsAppend(a, ['_']);
    SymbolsAppend(a, b);
    assert Symbols(['_']) == [Underscore];
    UnderscoreIgnoredSymbols(Symbols(a), Symbols(b));
  }

  /** Without underscores, a run of symbols is read exactly when every symbol is a digit. */
  lemma {:induction false} ReadableSymbols(x: seq<Symbol>)
    requires |x| > 0 && Underscore !in x
    ensures ReadSymbols(x).Some? <==> forall i :: 0 <= i < |x| ==> x[i].Dec?
    decreases |x|
  {
    if |x| > 1 {
      var init := x[..|x| - 1];
      assert init[|init| - 1] in x;
      assert Lead(x) == init;
      assert Underscore !in init by {
        assert forall e :: e in init ==> e in x;
      }
      ReadableSymbols(init);
      assert forall i :: 0 <= i < |init| ==> init[i] == x[i];
    }
  }

  /** A digit to `isdigit` is never the separator. */
  lemma {:induction false} NoUnderscore(s: string)
    requires AllDigits(s)
    ensures Underscore !in Symbols(s)
    decreases |s|
  {
    if s != [] {
      DigitSamples();
      NoUnderscore(s[..|s| - 1]);
    }
  }

  /** An `isdigit()` token is one `int()` reads exactly when every digit in it is decimal. */
  lemma IsDigitsReadable(s: string)
    requires IsDigits(s)
    ensures ReadDecimal(s).Some? <==> forall i :: 0 <= i < |s| ==> IsDecimal(s[i])
  {
    NoUnderscore(s);
    ReadableSymbols(Symbols(s));
  }
}

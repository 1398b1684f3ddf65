/**
 * JavaScript's ToNumber on the values stored data can hold, as a relational
 * comparison with a number applies it: strings are read with the
 * StringNumericLiteral grammar of section 7.1.4.1.1 of ECMA-262 (ECMAScript
 * 2023), arrays and objects are first turned into strings. A finite number
 * keeps its exact rational value.
 */
module Numbers {
  import opened Wrappers
  import opened Strings
  import opened Json

  /** A JavaScript number; a finite one is kept exactly. */
  datatype Number = Finite(v: real) | Infinite(positive: bool) | NaN

  /** `10` to the power `k`. */
  function Pow10(k: nat): (r: real)
    ensures r >= 1.0
  {
    if k == 0 then 1.0 else 10.0 * Pow10(k - 1)
  }

  /** `v × 10^e` */
  function Scale(v: real, e: int): real {
    if e >= 0 then v * Pow10(e) else v / Pow10(-e)
  }

  /** The value of `c` as a digit of base `radix` (letters of either case stand for 10 to 35), if it is one. */
  function DigitValue(c: char, radix: nat): (r: Option<nat>)
    ensures r.Some? ==> r.value < radix
    ensures '0' <= c <= '9' && c as int - '0' as int < radix ==> r == Some(c as int - '0' as int)
  {
    var d := if '0' <= c <= '9' then c as int - '0' as int
             else if 'a' <= c <= 'z' then c as int - 'a' as int + 10
             else if 'A' <= c <= 'Z' then c as int - 'A' as int + 10
             else 36;
    if d < radix then Some(d) else None
  }

  predicate AllRadixDigits(s: string, radix: nat) {
    forall i :: 0 <= i < |s| ==> DigitValue(s[i], radix).Some?
  }

  /** The value of a run of digits of base `radix`. */
  function ParseRadix(s: string, radix: nat): nat
    requires AllRadixDigits(s, radix)
  {
    if s == [] then 0
    else
      var high := ParseRadix(s[..|s| - 1], radix);
      ProductNat(high, radix);
      high * radix + DigitValue(s[|s| - 1], radix).value
  }

  lemma ProductNat(a: nat, b: nat)
    ensures a * b >= 0
  {
  }

  /** The position of the first `a` or `b` in `s`, or `|s|` when there is none. */
  function FirstOf(s: string, a: char, b: char): (r: nat)
    ensures r <= |s|
    ensures r < |s| ==> s[r] == a || s[r] == b
    ensures forall i :: 0 <= i < r ==> s[i] != a && s[i] != b
  {
    if s == [] then 0 else if s[0] == a || s[0] == b then 0 else 1 + FirstOf(s[1..], a, b)
  }

  /** An ExponentPart after its `e`: an optional sign, then at least one decimal digit. */
  function Exponent(x: string): Option<int> {
    var signed := x != [] && (x[0] == '+' || x[0] == '-');
    var digits := if signed then x[1..] else x;
    if digits == [] || !AllDigits(digits) then None
    else if signed && x[0] == '-' then Some(-(ParseDecimal(digits) as int))
    else Some(ParseDecimal(digits))
  }

  /**
   * A StrUnsignedDecimalLiteral other than `Infinity`: decimal digits with
   * an optional `.` and fraction (at least one digit in all), then an
   * optional exponent.
   */
  function UnsignedDecimal(u: string): Option<real> {
    var k := FirstOf(u, 'e', 'E');
    var exponent := if k < |u| then Exponent(u[k + 1..]) else Some(0);
    var m := u[..k];
    var d := FirstOf(m, '.', '.');
    var whole := m[..d];
    var fraction := if d < |m| then m[d + 1..] else [];
    if exponent.None? || !AllDigits(whole) || !AllDigits(fraction) || |whole| + |fraction| == 0 then None
    else
      var digits := (ParseDecimal(whole) as real) * Pow10(|fraction|) + ParseDecimal(fraction) as real;
      Some(Scale(digits, exponent.value - |fraction|))
  }

  /** A NonDecimalIntegerLiteral after its prefix: at least one digit of the base. */
  function NonDecimal(digits: string, radix: nat): Number {
    if digits != [] && AllRadixDigits(digits, radix) then Finite(ParseRadix(digits, radix) as real) else NaN
  }

  predicate HasPrefix(t: string, lower: char, upper: char) {
    |t| >= 2 && t[0] == '0' && (t[1] == lower || t[1] == upper)
  }

  /**
   * `Number(s)`: surrounding white space is ignored and a blank string is
   * 0; `0x`, `0o` and `0b` introduce unsigned hexadecimal, octal and binary
   * integers; otherwise an optional sign precedes `Infinity` or a decimal
   * literal. Anything else is NaN.
   */
  function StringToNumber(s: string): Number {
    NumericLiteral(Trim(s))
  }

  /** A StringNumericLiteral with its white space removed. */
  function NumericLiteral(t: string): Number {
    if t == [] then Finite(0.0)
    else if HasPrefix(t, 'x', 'X') then NonDecimal(t[2..], 16)
    else if HasPrefix(t, 'o', 'O') then NonDecimal(t[2..], 8)
    else if HasPrefix(t, 'b', 'B') then NonDecimal(t[2..], 2)
    else SignedDecimal(t)
  }

  /** A StrDecimalLiteral: an optional sign, then `Infinity` or an unsigned decimal literal. */
  function SignedDecimal(t: string): Number
    requires t != []
  {
    var negative := t[0] == '-';
    var u := if t[0] == '+' || t[0] == '-' then t[1..] else t;
    if u == "Infinity" then Infinite(!negative)
    else
      match UnsignedDecimal(u)
      case Some(v) => Finite(if negative then -v else v)
      case None => NaN
  }

  /** `String(n)` for an integer. */
  function IntToString(n: int): string {
    if n < 0 then "-" + NatToString(-n) else NatToString(n)
  }

  /** `String(j)`: an array joins its elements with commas, `null` elements as the empty string. */
  function JsToString(j: Json): string
    decreases j, 1
  {
    match j
    case Null => "null"
    case Bool(b) => if b then "true" else "false"
    case Num(n) => IntToString(n)
    case Str(s) => s
    case Arr(items) => JoinElements(items)
    case Obj(_) => ObjectString
  }

  /** What `String` gives for a plain object. */
  const ObjectString: string := "[object Object]"

  /** `items.join(",")` */
  function JoinElements(items: seq<Json>): string
    decreases items, 0
  {
    if items == [] then ""
    else
      (if items[0].Null? then "" else JsToString(items[0])) +
      (if |items| == 1 then "" else "," + JoinElements(items[1..]))
  }

  /**
   * Whether ToPrimitive throws. A stored value is never callable, so an
   * object with an own `toString` entry has no usable `toString`, and its
   * inherited `valueOf` gives back the object itself; an array throws when
   * `join` converts such an element.
   */
  predicate PrimitiveThrows(j: Json)
    decreases j, 1
  {
    match j
    case Obj(fields) => "toString" in fields
    case Arr(items) => ElementThrows(items)
    case _ => false
  }

  /** Whether converting some non-null element of an array throws. */
  predicate ElementThrows(items: seq<Json>)
    decreases items, 0
  {
    items != [] && (PrimitiveThrows(items[0]) || ElementThrows(items[1..]))
  }

  /** The TypeError OrdinaryToPrimitive throws when neither conversion method gives a primitive. */
  const ConversionError: JsError := JsError(TypeErrorName, "Cannot convert object to primitive value")

  /**
   * ToNumber applied after ToPrimitive with hint number: numbers, booleans
   * and `null` convert directly; an array or object has no primitive
   * `valueOf` and converts through its string, unless the conversion throws.
   */
  function ToNumber(j: Json): Result<Number, JsError> {
    if PrimitiveThrows(j) then Err(ConversionError)
    else
      Ok(match j
         case Null => Finite(0.0)
         case Bool(b) => Finite(if b then 1.0 else 0.0)
         case Num(n) => Finite(n as real)
         case Str(s) => StringToNumber(s)
         case Arr(_) => StringToNumber(JsToString(j))
         case Obj(_) => StringToNumber(JsToString(j)))
  }

  /** An array's conversion throws exactly when some element's does. */
  lemma {:induction false} ElementThrowsSome(items: seq<Json>)
    ensures ElementThrows(items) <==> exists i :: 0 <= i < |items| && PrimitiveThrows(items[i])
  {
    if items != [] {
      ElementThrowsSome(items[1..]);
      if ElementThrows(items[1..]) {
        var i :| 0 <= i < |items[1..]| && PrimitiveThrows(items[1..][i]);
        assert PrimitiveThrows(items[i + 1]);
      }
      if exists i :: 0 <= i < |items| && PrimitiveThrows(items[i]) {
        var i :| 0 <= i < |items| && PrimitiveThrows(items[i]);
        if i > 0 {
          assert PrimitiveThrows(items[1..][i - 1]);
        }
      }
    }
  }

  /**
   * An object with an own `toString` entry, or an array holding one at any
   * depth of its elements, throws the conversion TypeError.
   */
  lemma ToStringEntryThrows(fields: map<string, Json>, items: seq<Json>, i: nat)
    requires "toString" in fields && i < |items| && items[i] == Obj(fields)
    ensures ToNumber(Obj(fields)) == Err(ConversionError)
    ensures ToNumber(Arr(items)) == Err(ConversionError)
  {
    ElementThrowsSome(items);
  }

  /** Plain decimal digits are an unsigned decimal literal of their own value. */
  lemma UnsignedDigits(s: string)
    requires s != [] && AllDigits(s)
    ensures UnsignedDecimal(s) == Some(ParseDecimal(s) as real)
  {
    NoMarker(s, 'e', 'E');
    NoMarker(s, '.', '.');
    assert s[..|s|] == s;
    assert Pow10(0) == 1.0;
  }

  /** A string that starts with neither a digit nor `.` is no unsigned decimal literal. */
  lemma NoLeadingDigit(u: string)
    requires u != [] && !IsDigit(u[0]) && u[0] != '.'
    ensures UnsignedDecimal(u) == None
  {
    var k := FirstOf(u, 'e', 'E');
    if k > 0 {
      var m := u[..k];
      assert m[0] == u[0];
      var d := FirstOf(m, '.', '.');
      assert d > 0;
      assert m[..d][0] == u[0];
    }
  }

  /** A run of decimal digits reads as its value, with or without a minus sign. */
  lemma DigitsReadAsValue(s: string)
    requires s != [] && AllDigits(s)
    ensures StringToNumber(s) == Finite(ParseDecimal(s) as real)
    ensures StringToNumber("-" + s) == Finite(-(ParseDecimal(s) as real))
  {
    UnsignedDigitsRead(s);
    NegatedDigitsRead(s);
  }

  lemma UnsignedDigitsRead(s: string)
    requires s != [] && AllDigits(s)
    ensures StringToNumber(s) == Finite(ParseDecimal(s) as real)
  {
    NoSpaceDigits(s);
    SignedDigits(s);
    DecimalLiteral(s);
  }

  lemma NegatedDigitsRead(s: string)
    requires s != [] && AllDigits(s)
    ensures StringToNumber("-" + s) == Finite(-(ParseDecimal(s) as real))
  {
    NoSpaceEnds("-" + s);
    SignedDigits(s);
    DecimalLiteral("-" + s);
  }

  /** Decimal digits, signed or not, are a StrDecimalLiteral of their value. */
  lemma SignedDigits(s: string)
    requires s != [] && AllDigits(s)
    ensures SignedDecimal(s) == Finite(ParseDecimal(s) as real)
    ensures SignedDecimal("-" + s) == Finite(-(ParseDecimal(s) as real))
  {
    var v := ParseDecimal(s) as real;
    UnsignedDigits(s);
    assert UnsignedDecimal(s) == Some(v);
    assert s != "Infinity" by { assert s[0] != "Infinity"[0]; }
    assert s[0] != '+' && s[0] != '-';
    PlainDecimal(s, v);
    NegatedDecimal("-" + s, s, v);
  }

  lemma PlainDecimal(u: string, v: real)
    requires u != [] && u[0] != '+' && u[0] != '-' && u != "Infinity" && UnsignedDecimal(u) == Some(v)
    ensures SignedDecimal(u) == Finite(v)
  {
  }

  lemma NegatedDecimal(t: string, u: string, v: real)
    requires t == "-" + u && u != "Infinity" && UnsignedDecimal(u) == Some(v)
    ensures SignedDecimal(t) == Finite(-v)
  {
    assert t[1..] == u;
  }

  /** Without a digit in first position and a letter in second there is no radix prefix. */
  lemma DecimalLiteral(t: string)
    requires t != [] && (|t| >= 2 ==> IsDigit(t[1]))
    ensures NumericLiteral(t) == SignedDecimal(t)
  {
    assert !HasPrefix(t, 'x', 'X') && !HasPrefix(t, 'o', 'O') && !HasPrefix(t, 'b', 'B');
  }

  lemma NoSpaceDigits(s: string)
    requires s != [] && AllDigits(s)
    ensures Trim(s) == s
  {
    NoSpaceEnds(s);
  }

  lemma NoSpaceEnds(s: string)
    requires s != [] && !IsJsSpace(s[0]) && !IsJsSpace(s[|s| - 1])
    ensures Trim(s) == s
  {
    assert TrimStart(s) == s;
  }

  lemma NoMarker(s: string, a: char, b: char)
    requires AllDigits(s) && !IsDigit(a) && !IsDigit(b)
    ensures FirstOf(s, a, b) == |s|
  {
  }

  /** A StrDecimalLiteral without sign whose unsigned part is not a decimal literal is NaN. */
  lemma NotANumber(u: string)
    requires u != [] && u[0] != '+' && u[0] != '-' && u != "Infinity" && UnsignedDecimal(u).None?
    ensures SignedDecimal(u) == NaN
  {
  }

  /** `String(n)` reads back as `n`. */
  lemma IntStringReadsBack(n: int)
    ensures StringToNumber(IntToString(n)) == Finite(n as real)
  {
    if n < 0 {
      var m: nat := -n;
      NegatedStringReadsBack(m, NatToString(m));
      NegatedReal(m, n);
      NegativeString(n, m);
    } else {
      NatStringReadsBack(n);
    }
  }

  /** The decimal rendering of `m`, with or without a minus sign, reads back as `m` or `-m`. */
  lemma NatStringReadsBack(m: nat)
    ensures StringToNumber(NatToString(m)) == Finite(m as real)
    ensures StringToNumber("-" + NatToString(m)) == Finite(-(m as real))
  {
    NegatedStringReadsBack(m, NatToString(m));
    ParseNatToString(m);
    UnsignedDigitsRead(NatToString(m));
  }

  /** The rendering `t` of `m` with a minus sign reads back as `-m`. */
  lemma NegatedStringReadsBack(m: nat, t: string)
    requires t == NatToString(m)
    ensures StringToNumber("-" + t) == Finite(-(m as real))
  {
    ParseNatToString(m);
    DigitsWithValue(t, m);
  }

  lemma DigitsWithValue(t: string, v: nat)
    requires t != [] && AllDigits(t) && ParseDecimal(t) == v
    ensures StringToNumber("-" + t) == Finite(-(v as real))
  {
    NegatedDigitsRead(t);
  }

  lemma NegativeString(n: int, m: nat)
    requires n < 0 && n + m == 0
    ensures IntToString(n) == "-" + NatToString(m)
  {
  }

  /** A one-element array compares as its element: `[5]` is 5, `[null]` and `[]` are 0. */
  lemma SingletonArrays(n: int)
    ensures ToNumber(Arr([Num(n)])) == Ok(Finite(n as real))
    ensures ToNumber(Arr([Null])) == Ok(Finite(0.0))
    ensures ToNumber(Arr([])) == Ok(Finite(0.0))
  {
    assert !ElementThrows([Num(n)]) && !ElementThrows([Null]);
    var t := IntToString(n);
    assert JoinElements([Num(n)]) == t + "";
    assert t + "" == t;
    assert JsToString(Arr([Num(n)])) == t;
    IntStringReadsBack(n);
    assert JoinElements([Null]) == "" + "";
    assert JsToString(Arr([Null])) == "";
    assert JsToString(Arr([])) == "";
    assert Trim("") == "";
  }

  /** An object without an own `toString` converts through `"[object Object]"`, which is NaN. */
  lemma ObjectIsNaN(fields: map<string, Json>)
    requires "toString" !in fields
    ensures ToNumber(Obj(fields)) == Ok(NaN)
  {
    var t := ObjectString;
    assert t[0] == '[' && t[|t| - 1] == ']';
    NonNumericStart(t);
  }

  /** A string whose first character can start no numeric literal is NaN. */
  lemma NonNumericStart(t: string)
    requires t != [] && !IsJsSpace(t[0]) && !IsJsSpace(t[|t| - 1])
    requires !IsDigit(t[0]) && t[0] != '+' && t[0] != '-' && t[0] != '.' && t[0] != 'I'
    ensures StringToNumber(t) == NaN
  {
    NoSpaceEnds(t);
    assert NumericLiteral(t) == SignedDecimal(t);
    NoLeadingDigit(t);
    assert t != "Infinity" by { assert t[0] != "Infinity"[0]; }
    NotANumber(t);
  }

  lemma NegatedReal(m: nat, n: int)
    requires n + m == 0
    ensures -(m as real) == n as real
  {
  }

  /** Any white space around a literal is read past. */
  lemma SpacesReadPast(w1: string, t: string, w2: string)
    requires t != [] && !IsJsSpace(t[0]) && !IsJsSpace(t[|t| - 1])
    requires forall i :: 0 <= i < |w1| ==> IsJsSpace(w1[i])
    requires forall i :: 0 <= i < |w2| ==> IsJsSpace(w2[i])
    ensures StringToNumber(w1 + t + w2) == StringToNumber(t)
  {
    assert w1 + t + w2 == w1 + (t + w2);
    assert (t + w2)[0] == t[0];
    TrimStartPast(w1, t + w2);
    TrimEndPast(t, w2);
    NoSpaceEnds(t);
  }

  /** An explicit `+` before decimal digits changes nothing. */
  lemma PlusDigitsRead(s: string)
    requires s != [] && AllDigits(s)
    ensures StringToNumber("+" + s) == Finite(ParseDecimal(s) as real)
  {
    var t := "+" + s;
    NoSpaceEnds(t);
    DecimalLiteral(t);
    UnsignedDigits(s);
    assert s != "Infinity" by { assert s[0] != "Infinity"[0]; }
    assert t[1..] == s;
  }

  /** `"+" + String(m)` reads back as `m`. */
  lemma PlusStringReadsBack(m: nat)
    ensures StringToNumber("+" + NatToString(m)) == Finite(m as real)
  {
    ParseNatToString(m);
    PlusDigitsRead(NatToString(m));
  }

  /** `0x` followed by hexadecimal digits of either case reads as their value. */
  lemma HexDigitsRead(s: string)
    requires s != [] && AllRadixDigits(s, 16)
    ensures StringToNumber("0x" + s) == Finite(ParseRadix(s, 16) as real)
  {
    var t := "0x" + s;
    HexNotSpace(s[|s| - 1]);
    assert t[|t| - 1] == s[|s| - 1];
    NoSpaceEnds(t);
    assert t[2..] == s;
  }

  lemma HexNotSpace(c: char)
    requires DigitValue(c, 16).Some?
    ensures !IsJsSpace(c)
  {
  }

  /** A sign and surrounding white space are read past: `" +5 "` is 5. */
  lemma SignAndSpaces()
    ensures StringToNumber(" +5 ") == Finite(5.0)
  {
    SpacesAround();
    PlusFive();
  }

  lemma SpacesAround()
    ensures Trim(" +5 ") == "+5"
  {
    assert " +5 " == " " + "+5" + " ";
    PaddedTrim("+5");
  }

  /** One space on either side of a string that neither starts nor ends with one is trimmed away. */
  lemma PaddedTrim(t: string)
    requires t != [] && !IsJsSpace(t[0]) && !IsJsSpace(t[|t| - 1])
    ensures Trim(" " + t + " ") == t
  {
    var s := " " + t + " ";
    assert s[1..] == t + " ";
    assert TrimStart(t + " ") == t + " ";
    assert TrimStart(s) == t + " ";
    assert (t + " ")[..|t|] == t;
    assert TrimEnd(t) == t;
  }

  lemma PlusFive()
    ensures NumericLiteral("+5") == Finite(5.0)
  {
    assert "+5"[1..] == "5";
    UnsignedDigits("5");
    assert "5" != "Infinity";
  }

  /** An exponent scales the digits: `"1e3"` is 1000. */
  lemma ExponentForm()
    ensures StringToNumber("1e3") == Finite(1000.0)
  {
    NoSpaceEnds("1e3");
    ExponentUnsigned();
    PlainDecimal("1e3", 1000.0);
  }

  lemma ExponentUnsigned()
    ensures UnsignedDecimal("1e3") == Some(1000.0)
  {
    ExponentMarker();
    ExponentThree();
    assert "1e3"[..1] == "1";
    UnsignedDigits("1");
    assert Pow10(3) == 1000.0;
  }

  lemma ExponentMarker()
    ensures FirstOf("1e3", 'e', 'E') == 1 && "1e3"[2..] == "3"
  {
    assert "1e3"[1..] == "e3";
  }

  lemma ExponentThree()
    ensures Exponent("3") == Some(3)
  {
  }

  /** A fraction after the point: `"2.5"` is 2.5. */
  lemma FractionForm()
    ensures StringToNumber("2.5") == Finite(2.5)
  {
    NoSpaceEnds("2.5");
    FractionUnsigned();
    PlainDecimal("2.5", 2.5);
  }

  lemma FractionUnsigned()
    ensures UnsignedDecimal("2.5") == Some(2.5)
  {
    FractionMarkers();
    assert ParseDecimal("2") == 2 && ParseDecimal("5") == 5;
    assert Pow10(1) == 10.0;
  }

  lemma FractionMarkers()
    ensures FirstOf("2.5", 'e', 'E') == 3 && "2.5"[..3] == "2.5"
    ensures FirstOf("2.5", '.', '.') == 1 && "2.5"[..1] == "2" && "2.5"[2..] == "5"
  {
    assert "2.5"[1..] == ".5";
    assert "2.5"[1..][1..] == "5";
  }

  /** `0x` introduces hexadecimal digits: `"0x1F"` is 31. */
  lemma HexForm()
    ensures StringToNumber("0x1F") == Finite(31.0)
  {
    NoSpaceEnds("0x1F");
    HexDigits();
  }

  /** A hexadecimal literal takes no sign: `"-0x1F"` is NaN. */
  lemma SignedHexForm()
    ensures StringToNumber("-0x1F") == NaN
  {
    NoSpaceEnds("-0x1F");
    SignedHex();
  }

  lemma HexDigits()
    ensures NumericLiteral("0x1F") == Finite(31.0)
  {
    assert "0x1F"[2..] == "1F";
    assert AllRadixDigits("1F", 16);
    assert "1F"[..1] == "1";
    assert ParseRadix("1F", 16) == 31;
  }

  lemma SignedHex()
    ensures NumericLiteral("-0x1F") == NaN
  {
    assert "-0x1F"[1..] == "0x1F";
    HexNotDecimal();
    NegatedNaN("-0x1F", "0x1F");
  }

  lemma HexNotDecimal()
    ensures UnsignedDecimal("0x1F") == None
  {
    assert "0x1F"[1..] == "x1F";
    NoMarkerIn("x1F");
    assert FirstOf("0x1F", 'e', 'E') == 4 && "0x1F"[..4] == "0x1F";
    assert FirstOf("0x1F", '.', '.') == 4 && "0x1F"[..4] == "0x1F";
    assert !AllDigits("0x1F") by { assert !IsDigit("0x1F"[1]); }
  }

  lemma NoMarkerIn(s: string)
    requires s == "x1F"
    ensures FirstOf(s, 'e', 'E') == 3 && FirstOf(s, '.', '.') == 3
  {
    assert s[1..] == "1F" && s[1..][1..] == "F";
  }

  lemma NegatedNaN(t: string, u: string)
    requires t == "-" + u && u != "Infinity" && UnsignedDecimal(u) == None
    ensures SignedDecimal(t) == NaN
  {
    assert t[1..] == u;
  }

  /** `Infinity` with a sign is an infinite number: `"-Infinity"` is less than every number. */
  lemma InfinityForm()
    ensures StringToNumber("-Infinity") == Infinite(false)
  {
    NoSpaceEnds("-Infinity");
    InfinityLiteral();
  }

  lemma InfinityLiteral()
    ensures NumericLiteral("-Infinity") == Infinite(false)
  {
    SignedInfinity();
  }

  lemma SignedInfinity()
    ensures SignedDecimal("-Infinity") == Infinite(false)
  {
    assert "-Infinity"[1..] == "Infinity";
  }
}

/** The Python built-ins the column validations rely on: `str.split` with a
    separator, removal of a character with `str.replace(c, "")`, `str()` of
    the values a test parameter can hold, and truthiness. */
module PyBuiltins {
  import opened Wrappers

  // ---------------------------------------------------------------------------
  // str.split(sep)
  // ---------------------------------------------------------------------------

  /** Glues a character to the front of the first part. */
  function PrependToFirst(c: char, parts: seq<string>): seq<string>
    requires |parts| >= 1
  {
    [[c] + parts[0]] + parts[1..]
  }

  /** `s.split(sep)`: scanning left to right, every occurrence of `sep` that
      does not overlap an earlier one ends a part. */
  function Split(s: string, sep: string): (parts: seq<string>)
    requires |sep| > 0
    ensures |parts| >= 1
    decreases |s|
  {
    if |sep| <= |s| && s[..|sep|] == sep then [""] + Split(s[|sep|..], sep)
    else if s == [] then [""]
    else PrependToFirst(s[0], Split(s[1..], sep))
  }

  /** `sep.join(parts)`. */
  function Join(parts: seq<string>, sep: string): string
    decreases |parts|
  {
    if parts == [] then ""
    else if |parts| == 1 then parts[0]
    else parts[0] + sep + Join(parts[1..], sep)
  }

  function Last(parts: seq<string>): string
    requires |parts| >= 1
  {
    parts[|parts| - 1]
  }

  lemma {:induction false} JoinPrependToFirst(c: char, parts: seq<string>, sep: string)
    requires |parts| >= 1
    ensures Join(PrependToFirst(c, parts), sep) == [c] + Join(parts, sep)
  {
    var q := PrependToFirst(c, parts);
    if |parts| > 1 {
      assert q[1..] == parts[1..];
      assert ([c] + parts[0]) + sep + Join(parts[1..], sep) == [c] + (parts[0] + sep + Join(parts[1..], sep));
    }
  }

  /** Joining the parts of a split with the same separator gives back the
      string: splitting loses nothing. */
  lemma {:induction false} JoinSplit(s: string, sep: string)
    requires |sep| > 0
    ensures Join(Split(s, sep), sep) == s
    decreases |s|
  {
    if |sep| <= |s| && s[..|sep|] == sep {
      JoinSplit(s[|sep|..], sep);
      JoinSplitAfterSeparator(s[|sep|..], sep);
      assert s == sep + s[|sep|..];
    } else if s != [] {
      assert s == [s[0]] + s[1..];
      JoinSplit(s[1..], sep);
      JoinSplitAfterChar(s[0], s[1..], sep);
    }
  }

  lemma JoinSplitAfterSeparator(x: string, sep: string)
    requires 0 < |sep|
    requires Join(Split(x, sep), sep) == x
    ensures Join(Split(sep + x, sep), sep) == sep + x
  {
    SplitAfterSeparator(x, sep);
    JoinCons("", Split(x, sep), sep);
    assert "" + sep == sep;
  }

  lemma JoinCons(part: string, parts: seq<string>, sep: string)
    requires |parts| >= 1
    ensures Join([part] + parts, sep) == part + sep + Join(parts, sep)
  {
    var q := [part] + parts;
    assert q[0] == part && q[1..] == parts;
  }

  lemma JoinSplitAfterChar(c: char, x: string, sep: string)
    requires 0 < |sep| && !(|sep| <= |[c] + x| && ([c] + x)[..|sep|] == sep)
    requires Join(Split(x, sep), sep) == x
    ensures Join(Split([c] + x, sep), sep) == [c] + x
  {
    calc {
      Join(Split([c] + x, sep), sep);
      == { SplitAtOtherChar([c] + x, sep); assert ([c] + x)[0] == c && ([c] + x)[1..] == x; }
      Join(PrependToFirst(c, Split(x, sep)), sep);
      == { JoinPrependToFirst(c, Split(x, sep), sep); }
      [c] + Join(Split(x, sep), sep);
    }
  }

  /** Whether `sep` occurs in `s` starting at index `i`. */
  predicate OccursAt(sep: string, s: string, i: nat)
  {
    i + |sep| <= |s| && s[i..i + |sep|] == sep
  }

  /** Whether `sep` occurs somewhere in `s`. */
  predicate Occurs(sep: string, s: string)
  {
    exists i: nat | i <= |s| :: OccursAt(sep, s, i)
  }

  /** A string in which the separator does not occur is a single part. */
  lemma {:induction false} SplitWithoutSeparator(s: string, sep: string)
    requires |sep| > 0 && !Occurs(sep, s)
    ensures Split(s, sep) == [s]
    decreases |s|
  {
    if s != [] {
      assert !OccursAt(sep, s, 0);
      assert !Occurs(sep, s[1..]) by {
        forall i: nat | i <= |s[1..]| ensures !OccursAt(sep, s[1..], i) {
          assert !OccursAt(sep, s, i + 1);
          if i + |sep| <= |s[1..]| {
            assert s[1..][i..i + |sep|] == s[i + 1..i + 1 + |sep|];
          }
        }
      }
      SplitWithoutSeparator(s[1..], sep);
      SplitAtOtherChar(s, sep);
      assert [s[0]] + s[1..] == s;
    }
  }

  /** A separator whose first character is absent from a string does not occur in it. */
  lemma FirstCharAbsent(s: string, sep: string)
    requires |sep| > 0 && sep[0] !in s
    ensures !Occurs(sep, s)
  {
    forall i: nat | i <= |s| ensures !OccursAt(sep, s, i) {
      if i + |sep| <= |s| {
        assert s[i..i + |sep|][0] == s[i];
      }
    }
  }

  /** Cutting at a "::" that no ':' precedes splits the two sides apart. */
  lemma {:induction false} SplitAtDoubleColon(p: string, t: string)
    requires p == [] || p[|p| - 1] != ':'
    ensures Split(p + "::" + t, "::") == Split(p, "::") + Split(t, "::")
    decreases |p|
  {
    if p == [] {
      SplitAtLeadingDoubleColon(t);
    } else if |p| >= 2 && p[..2] == "::" {
      SplitAtDoubleColon(p[2..], t);
      SplitAtDoubleColonSkip(p, t);
    } else if |p| == 1 {
      SplitAtDoubleColonAfterOneChar(p, t);
    } else {
      SplitAtDoubleColon(p[1..], t);
      SplitAtDoubleColonStep(p, t);
    }
  }

  lemma SplitAtLeadingDoubleColon(t: string)
    ensures Split("" + "::" + t, "::") == Split("", "::") + Split(t, "::")
  {
    assert "" + "::" + t == "::" + t;
    SplitAfterSeparator(t, "::");
  }

  lemma SplitAtDoubleColonSkip(p: string, t: string)
    requires |p| >= 2 && p[..2] == "::"
    requires Split(p[2..] + "::" + t, "::") == Split(p[2..], "::") + Split(t, "::")
    ensures Split(p + "::" + t, "::") == Split(p, "::") + Split(t, "::")
  {
    var s := p + "::" + t;
    SliceOfAppend(p, "::", t, 2);
    SplitAtSeparator(s, "::");
    SplitAtSeparator(p, "::");
    ConsAppend("", Split(p[2..], "::"), Split(t, "::"));
  }

  /** Slicing a concatenation inside its first part. */
  lemma SliceOfAppend<T>(p: seq<T>, m: seq<T>, t: seq<T>, k: nat)
    requires k <= |p|
    ensures (p + m + t)[..k] == p[..k]
    ensures (p + m + t)[k..] == p[k..] + m + t
  {
  }

  lemma ConsAppend<T>(x: T, a: seq<T>, b: seq<T>)
    ensures [x] + (a + b) == ([x] + a) + b
  {
  }

  lemma SplitAtDoubleColonStep(p: string, t: string)
    requires |p| >= 2 && p[..2] != "::"
    requires Split(p[1..] + "::" + t, "::") == Split(p[1..], "::") + Split(t, "::")
    ensures Split(p + "::" + t, "::") == Split(p, "::") + Split(t, "::")
  {
    var s := p + "::" + t;
    assert s[..2] == p[..2] && s[0] == p[0] && s[1..] == p[1..] + "::" + t;
    SplitAtOtherChar(s, "::");
    SplitAtOtherChar(p, "::");
    PrependToFirstAppend(p[0], Split(p[1..], "::"), Split(t, "::"));
  }

  /** One step of `Split` past a leading separator. */
  lemma SplitAfterSeparator(s: string, sep: string)
    requires 0 < |sep|
    ensures Split(sep + s, sep) == [""] + Split(s, sep)
  {
    assert (sep + s)[..|sep|] == sep && (sep + s)[|sep|..] == s;
  }

  /** One step of `Split` at a separator that starts the string. */
  lemma SplitAtSeparator(s: string, sep: string)
    requires 0 < |sep| <= |s| && s[..|sep|] == sep
    ensures Split(s, sep) == [""] + Split(s[|sep|..], sep)
  {
  }

  /** One step of `Split` where the separator does not start the string. */
  lemma SplitAtOtherChar(s: string, sep: string)
    requires 0 < |sep| && s != [] && !(|sep| <= |s| && s[..|sep|] == sep)
    ensures Split(s, sep) == PrependToFirst(s[0], Split(s[1..], sep))
  {
  }

  lemma SplitAtDoubleColonAfterOneChar(p: string, t: string)
    requires |p| == 1 && p[0] != ':'
    ensures Split(p + "::" + t, "::") == Split(p, "::") + Split(t, "::")
  {
    var c := p[0];
    assert p == [c];
    assert Split(p, "::") == [[c]] by {
      SplitAtOtherChar(p, "::");
      assert p[1..] == [] && Split([], "::") == [""];
      assert [c] + "" == [c];
    }
    var s := p + "::" + t;
    assert s[..2] != "::" by { assert s[0] == c; }
    assert s[1..] == "::" + t;
    assert s[1..][..2] == "::" && s[1..][2..] == t;
    assert Split(s[1..], "::") == [""] + Split(t, "::");
    assert Split(s, "::") == PrependToFirst(c, [""] + Split(t, "::"));
    assert [c] + "" == [c];
  }

  lemma PrependToFirstAppend(c: char, a: seq<string>, b: seq<string>)
    requires |a| >= 1
    ensures PrependToFirst(c, a + b) == PrependToFirst(c, a) + b
  {
    assert (a + b)[0] == a[0] && (a + b)[1..] == a[1..] + b;
  }

  // ---------------------------------------------------------------------------
  // str.replace(c, "")
  // ---------------------------------------------------------------------------

  /** `s.replace(c, "")`: every occurrence of `c` is removed, everything else
      is kept. */
  function RemoveAll(s: string, c: char): (r: string)
    ensures c !in r
    ensures c !in s ==> r == s
    decreases |s|
  {
    if s == [] then []
    else (if s[0] == c then [] else [s[0]]) + RemoveAll(s[1..], c)
  }

  /** Removal keeps every other character, as often as it occurs. */
  lemma {:induction false} RemoveAllKeepsOthers(s: string, c: char)
    ensures multiset(RemoveAll(s, c)) == multiset(s)[c := 0]
    decreases |s|
  {
    if s != [] {
      RemoveAllKeepsOthers(s[1..], c);
      assert s == [s[0]] + s[1..];
    }
  }

  /** Removal distributes over concatenation. */
  lemma {:induction false} RemoveAllAppend(s: string, t: string, c: char)
    ensures RemoveAll(s + t, c) == RemoveAll(s, c) + RemoveAll(t, c)
    decreases |s|
  {
    if s == [] {
      assert s + t == t;
    } else {
      var head := if s[0] == c then [] else [s[0]];
      assert (s + t)[0] == s[0] && (s + t)[1..] == s[1..] + t;
      assert RemoveAll(s + t, c) == head + RemoveAll(s[1..] + t, c);
      RemoveAllAppend(s[1..], t, c);
      assert RemoveAll(s, c) == head + RemoveAll(s[1..], c);
      assert head + (RemoveAll(s[1..], c) + RemoveAll(t, c))
          == (head + RemoveAll(s[1..], c)) + RemoveAll(t, c);
    }
  }

  // ---------------------------------------------------------------------------
  // str() of integers
  // ---------------------------------------------------------------------------

  predicate IsDigits(s: string)
  {
    forall i | 0 <= i < |s| :: '0' <= s[i] <= '9'
  }

  function DigitChar(d: nat): (c: char)
    requires d < 10
    ensures '0' <= c <= '9' && c as int - '0' as int == d
  {
    ('0' as int + d) as char
  }

  /** Decimal digits of a natural number, most significant first. */
  function NatToString(n: nat): (s: string)
    ensures |s| >= 1 && IsDigits(s)
    decreases n
  {
    if n < 10 then [DigitChar(n)] else NatToString(n / 10) + [DigitChar(n % 10)]
  }

  /** `str(i)` for an int: a minus sign before the digits of a negative number. */
  function IntToString(i: int): (s: string)
    ensures |s| >= 1
    ensures s[0] == '-' <==> i < 0
    ensures IsDigits(if i < 0 then s[1..] else s)
  {
    if i < 0 then "-" + NatToString(-i) else NatToString(i)
  }

  /** The number a string of decimal digits denotes. */
  function DigitsValue(s: string): nat
    requires IsDigits(s)
    decreases |s|
  {
    if s == [] then 0
    else
      assert IsDigits(s[..|s| - 1]);
      DigitsValue(s[..|s| - 1]) * 10 + (s[|s| - 1] as int - '0' as int)
  }

  /** `int(s)` for an optionally signed string of decimal digits. */
  function ParseInt(s: string): Option<int>
  {
    if s == [] then None
    else if s[0] == '-' then
      if |s| > 1 && IsDigits(s[1..]) then Some(-(DigitsValue(s[1..]) as int)) else None
    else if IsDigits(s) then Some(DigitsValue(s))
    else None
  }

  lemma {:induction false} NatToStringRoundTrip(n: nat)
    ensures DigitsValue(NatToString(n)) == n
    decreases n
  {
    if n >= 10 {
      NatToStringRoundTrip(n / 10);
      var s := NatToString(n);
      assert s[..|s| - 1] == NatToString(n / 10);
    }
  }

  lemma ParseNegative(digits: string)
    requires |digits| >= 1 && IsDigits(digits)
    ensures ParseInt("-" + digits) == Some(-(DigitsValue(digits) as int))
  {
    var s := "-" + digits;
    assert s[0] == '-' && s[1..] == digits;
  }

  lemma ParseNonNegative(digits: string)
    requires |digits| >= 1 && IsDigits(digits)
    ensures ParseInt(digits) == Some(DigitsValue(digits) as int)
  {
    assert '0' <= digits[0] <= '9';
  }

  /** The digits of `n`, with or without a minus sign, read back as `n` or `-n`. */
  lemma NatToStringParses(n: nat)
    ensures ParseInt(NatToString(n)) == Some(n)
    ensures ParseInt("-" + NatToString(n)) == Some(-(n as int))
  {
    NatToStringRoundTrip(n);
    ParseNonNegative(NatToString(n));
    ParseNegative(NatToString(n));
  }

  /** The text `str()` gives an int reads back as that int. */
  lemma IntToStringRoundTrip(i: int)
    ensures ParseInt(IntToString(i)) == Some(i)
  {
    var n: nat := if i < 0 then -i else i;
    NatToStringParses(n);
  }

  // ---------------------------------------------------------------------------
  // Parameter values
  // ---------------------------------------------------------------------------

  /** A literal a test parameter evaluates to: None, an int, or a list of strings. */
  datatype PyValue = PyNone | PyInt(i: int) | PyStrList(items: seq<string>)

  /** Python truthiness: None, 0 and the empty list are false. */
  function Truthy(v: PyValue): (truthy: bool)
    ensures !truthy <==> v == PyNone || v == PyInt(0) || v == PyStrList([])
  {
    match v
    case PyNone => false
    case PyInt(i) => i != 0
    case PyStrList(items) => items != []
  }

  function QuotedItems(items: seq<string>): string
    decreases |items|
  {
    if items == [] then ""
    else if |items| == 1 then "'" + items[0] + "'"
    else "'" + items[0] + "', " + QuotedItems(items[1..])
  }

  /** `str(v)`. */
  function Str(v: PyValue): (s: string)
    ensures v == PyNone <==> s == "None"
    ensures v.PyInt? ==> ParseInt(s) == Some(v.i)
    ensures v.PyStrList? ==> |s| >= 2 && s[0] == '[' && s[|s| - 1] == ']'
  {
    match v
    case PyNone => "None"
    case PyInt(i) => IntToStringRoundTrip(i); IntToString(i)
    case PyStrList(items) =>
      var s := "[" + QuotedItems(items) + "]";
      assert s[0] == '[' != "None"[0];
      s
  }

  /** The Python value of a nullable count. */
  function FromCount(count: Option<int>): (v: PyValue)
    ensures v.PyNone? <==> count.None?
    ensures count.Some? ==> v == PyInt(count.value)
  {
    if count.Some? then PyInt(count.value) else PyNone
  }
}

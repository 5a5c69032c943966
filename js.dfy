/** JavaScript runtime semantics that the platform's code relies on: values and
    their truthiness, `String(v)`, ASCII case mapping, `path.extname` and
    `parseInt`. Numbers are integers in this model. */
module Js {

  datatype Option<+T> = None | Some(value: T)

  /** A JavaScript value as it travels through the platform: spreadsheet cells,
      JSON request and response bodies, Redux payloads. */
  datatype Value =
    | Undefined
    | Null
    | Bool(b: bool)
    | Num(n: int)
    | Str(s: string)
    | Arr(items: seq<Value>)
    | Obj(entries: seq<(string, Value)>)

  /** JavaScript truthiness: `undefined`, `null`, `false`, `0` and `''` are falsy. */
  predicate Truthy(v: Value)
  {
    match v
    case Undefined => false
    case Null => false
    case Bool(b) => b
    case Num(n) => n != 0
    case Str(s) => s != ""
    case Arr(_) => true
    case Obj(_) => true
  }

  /** `null` or `undefined`: reading a property of either throws. */
  predicate Nullish(v: Value)
  {
    v.Null? || v.Undefined?
  }

  /** An optional string field of a request body is given when it is present
      and not the empty string (`!field` is false). */
  predicate Given(o: Option<string>)
  {
    o.Some? && o.value != ""
  }

  /** Property read `o[k]`: the first entry with key `k`, else `undefined`.
      Reading a property of a non-object yields `undefined` here. */
  function Prop(v: Value, k: string): (r: Value)
    ensures (!v.Obj? || forall i | 0 <= i < |v.entries| :: v.entries[i].0 != k) ==> r == Undefined
  {
    if v.Obj? then Lookup(v.entries, k) else Undefined
  }

  function Lookup(entries: seq<(string, Value)>, k: string): (r: Value)
    ensures (forall i | 0 <= i < |entries| :: entries[i].0 != k) ==> r == Undefined
    ensures |entries| > 0 && entries[0].0 == k ==> r == entries[0].1
  {
    if |entries| == 0 then Undefined
    else if entries[0].0 == k then entries[0].1
    else Lookup(entries[1..], k)
  }

  /** `Object.keys(v)` for an object: its keys in insertion order. */
  function Keys(v: Value): (r: seq<string>)
    ensures v.Obj? ==> |r| == |v.entries| && forall i | 0 <= i < |r| :: r[i] == v.entries[i].0
    ensures !v.Obj? ==> r == []
  {
    if v.Obj? then seq(|v.entries|, i requires 0 <= i < |v.entries| => v.entries[i].0) else []
  }

  /** Strict equality `===`. Arrays and objects here are always distinct
      references (they arrive as fresh JSON), so they are never `===`. */
  predicate StrictEq(a: Value, b: Value)
  {
    match a
    case Arr(_) => false
    case Obj(_) => false
    case _ => a == b
  }

  function DigitChar(d: nat): (c: char)
    requires d < 10
    ensures '0' <= c <= '9'
  {
    ('0' as int + d) as char
  }

  function NatToString(n: nat): (r: string)
    ensures |r| > 0 && '0' <= r[|r| - 1] <= '9'
    decreases n
  {
    if n < 10 then [DigitChar(n)] else NatToString(n / 10) + [DigitChar(n % 10)]
  }

  /** The decimal text of an integer, as `String(n)` writes it. */
  function IntToString(n: int): (r: string)
    ensures |r| > 0 && '0' <= r[|r| - 1] <= '9'
  {
    if n < 0 then "-" + NatToString(-n) else NatToString(n)
  }

  /** `Array.prototype.join`. */
  function Join(parts: seq<string>, sep: string): (r: string)
  {
    if |parts| == 0 then ""
    else if |parts| == 1 then parts[0]
    else parts[0] + sep + Join(parts[1..], sep)
  }

  /** `s.split(c)` for a one-character separator: the pieces between
      separators, always at least one. */
  function Split(s: string, c: char): (parts: seq<string>)
    ensures |parts| >= 1
  {
    if |s| == 0 then [""]
    else
      var rest := Split(s[1..], c);
      if s[0] == c then [""] + rest else [[s[0]] + rest[0]] + rest[1..]
  }

  /** A first character other than the separator joins the first piece. */
  lemma SplitCons(x: char, s: string, c: char)
    requires x != c
    ensures Split([x] + s, c) == [[x] + Split(s, c)[0]] + Split(s, c)[1..]
  {
    assert ([x] + s)[1..] == s;
  }

  /** A piece free of the separator runs up to the next separator. */
  lemma {:induction false} SplitPrefix(p: string, c: char, t: string)
    requires c !in p
    ensures Split(p + t, c) == [p + Split(t, c)[0]] + Split(t, c)[1..]
  {
    var r := Split(t, c);
    if |p| > 0 {
      SplitPrefix(p[1..], c, t);
      assert p + t == [p[0]] + (p[1..] + t);
      SplitCons(p[0], p[1..] + t, c);
      assert [p[0]] + (p[1..] + r[0]) == p + r[0];
    } else {
      assert p + t == t;
      assert p + r[0] == r[0];
    }
  }

  /** Splitting a join by its own separator gives the parts back when no part
      contains the separator. */
  lemma {:induction false} SplitJoin(parts: seq<string>, c: char)
    requires |parts| >= 1
    requires forall i | 0 <= i < |parts| :: c !in parts[i]
    ensures Split(Join(parts, [c]), c) == parts
  {
    if |parts| == 1 {
      SplitPrefix(parts[0], c, "");
      assert parts[0] + "" == parts[0];
    } else {
      var tail := Join(parts[1..], [c]);
      SplitJoin(parts[1..], c);
      SplitPrefix(parts[0], c, [c] + tail);
      assert parts[0] + [c] + tail == parts[0] + ([c] + tail);
      assert ([c] + tail)[1..] == tail;
      assert Split([c] + tail, c) == [""] + parts[1..];
      assert parts[0] + "" == parts[0];
      assert parts == [parts[0]] + parts[1..];
    }
  }

  /** A character in neither the parts nor the separator is not in their join. */
  lemma {:induction false} JoinExcludes(parts: seq<string>, sep: string, c: char)
    requires c !in sep
    requires forall i | 0 <= i < |parts| :: c !in parts[i]
    ensures c !in Join(parts, sep)
  {
    if |parts| > 1 {
      JoinExcludes(parts[1..], sep, c);
    }
  }

  /** `String(v)`, the conversion used by template literals and by `new Error(v)`. */
  function ToStr(v: Value): string
    decreases v
  {
    match v
    case Undefined => "undefined"
    case Null => "null"
    case Bool(b) => if b then "true" else "false"
    case Num(n) => IntToString(n)
    case Str(s) => s
    case Arr(items) =>
      // an array joins its elements with ',', writing null and undefined as ''
      Join(seq(|items|, i requires 0 <= i < |items| =>
             if items[i].Undefined? || items[i].Null? then "" else ToStr(items[i])), ",")
    case Obj(_) => "[object Object]"
  }

  function LowerChar(c: char): char
  {
    if 'A' <= c <= 'Z' then (c as int + 32) as char else c
  }

  function UpperChar(c: char): char
  {
    if 'a' <= c <= 'z' then (c as int - 32) as char else c
  }

  /** `s.toLowerCase()` on ASCII letters. */
  function Lower(s: string): (r: string)
    ensures |r| == |s|
    ensures forall i | 0 <= i < |s| :: r[i] == LowerChar(s[i])
  {
    seq(|s|, i requires 0 <= i < |s| => LowerChar(s[i]))
  }

  /** `s.toUpperCase()` on ASCII letters. */
  function Upper(s: string): (r: string)
    ensures |r| == |s|
    ensures forall i | 0 <= i < |s| :: r[i] == UpperChar(s[i])
  {
    seq(|s|, i requires 0 <= i < |s| => UpperChar(s[i]))
  }

  /** Lower-casing twice is lower-casing once. */
  lemma LowerIdempotent(s: string)
    ensures Lower(Lower(s)) == Lower(s)
  {
  }

  predicate EndsWith(s: string, suffix: string)
  {
    |suffix| <= |s| && s[|s| - |suffix|..] == suffix
  }

  predicate StartsWith(s: string, prefix: string)
  {
    |prefix| <= |s| && s[..|prefix|] == prefix
  }

  lemma LowerSuffix(s: string, k: nat)
    requires k <= |s|
    ensures Lower(s)[k..] == Lower(s[k..])
  {
  }

  // ---------------------------------------------------------------------------
  // path.extname (POSIX)

  /** The index of the last occurrence of `c` in `s`, if any. */
  function LastIndexOf(s: string, c: char): (r: Option<nat>)
    ensures r.None? ==> forall i | 0 <= i < |s| :: s[i] != c
    ensures r.Some? ==> r.value < |s| && s[r.value] == c
                        && forall i | r.value < i < |s| :: s[i] != c
  {
    if |s| == 0 then None
    else if s[|s| - 1] == c then Some(|s| - 1)
    else LastIndexOf(s[..|s| - 1], c)
  }

  /** `p` without its trailing '/' characters. */
  function TrimTrailingSlashes(p: string): (r: string)
    ensures |r| <= |p| && r == p[..|r|]
    ensures |r| > 0 ==> r[|r| - 1] != '/'
    ensures forall i | |r| <= i < |p| :: p[i] == '/'
  {
    if |p| > 0 && p[|p| - 1] == '/' then TrimTrailingSlashes(p[..|p| - 1]) else p
  }

  /** The last path component, trailing slashes ignored. */
  function Basename(p: string): (r: string)
    ensures '/' !in r
  {
    var t := TrimTrailingSlashes(p);
    match LastIndexOf(t, '/')
    case None => t
    case Some(k) => t[k + 1..]
  }

  /** The extension of a base name as Node's `path.extname` gives it: from the
      last '.' to the end, except that a '.' opening the name (".xls") and the
      name ".." give no extension. */
  function BaseExtension(base: string): (r: string)
    ensures r == "" || (r[0] == '.' && EndsWith(base, r) && '.' !in r[1..] && |r| < |base|)
  {
    match LastIndexOf(base, '.')
    case None => ""
    case Some(k) => if k == 0 || base == ".." then "" else base[k..]
  }

  function Extname(p: string): string
  {
    BaseExtension(Basename(p))
  }

  /** A name whose last `m` characters hold no '/' and which does not end
      in '/' has a base name ending in those same characters. */
  lemma BasenameKeepsTail(name: string, m: nat)
    requires 0 < m <= |name|
    requires forall i | |name| - m <= i < |name| :: name[i] != '/'
    ensures |Basename(name)| >= m
    ensures Basename(name)[|Basename(name)| - m..] == name[|name| - m..]
  {
    var n := |name|;
    assert TrimTrailingSlashes(name) == name;
    match LastIndexOf(name, '/')
    case None =>
    case Some(k) =>
      assert k < n - m;
  }

  /** A base name whose only '.' among its last `m` characters opens them,
      and which has no '.' after that, has those characters as its extension
      unless they are the whole name. */
  lemma BaseExtensionOfTail(base: string, m: nat)
    requires 0 < m <= |base|
    requires base[|base| - m] == '.'
    requires forall i | |base| - m < i < |base| :: base[i] != '.'
    ensures BaseExtension(base) == "" || BaseExtension(base) == base[|base| - m..]
    ensures |base| > m && base != ".." ==> BaseExtension(base) == base[|base| - m..]
  {
    assert LastIndexOf(base, '.') == Some(|base| - m);
  }

  /** A name whose last `m` characters hold no '/' and just one '.',
      opening them, has those characters as its extension or none. */
  lemma ExtnameOfTail(name: string, m: nat)
    requires 0 < m <= |name|
    requires forall i | |name| - m <= i < |name| :: name[i] != '/'
    requires name[|name| - m] == '.'
    requires forall i | |name| - m < i < |name| :: name[i] != '.'
    ensures Extname(name) == "" || Extname(name) == name[|name| - m..]
  {
    var n := |name|;
    BasenameKeepsTail(name, m);
    var base := Basename(name);
    var tail := name[n - m..];
    assert base[|base| - m..] == tail;
    assert base[|base| - m] == tail[0];
    forall i | |base| - m < i < |base| ensures base[i] != '.' {
      assert base[i] == tail[i - (|base| - m)];
    }
    BaseExtensionOfTail(base, m);
  }

  /** The same name has those characters as its extension for certain when
      the character before them is neither '/' nor '.'. */
  lemma ExtnameOfLongTail(name: string, m: nat)
    requires 0 < m < |name|
    requires forall i | |name| - m - 1 <= i < |name| :: name[i] != '/'
    requires name[|name| - m] == '.' && name[|name| - m - 1] != '.'
    requires forall i | |name| - m < i < |name| :: name[i] != '.'
    ensures Extname(name) == name[|name| - m..]
  {
    var n := |name|;
    BasenameKeepsTail(name, m + 1);
    var base := Basename(name);
    var tail := name[n - m - 1..];
    assert base[|base| - m - 1..] == tail;
    assert base[|base| - m] == tail[1];
    assert base[|base| - m - 1] == tail[0];
    forall i | |base| - m < i < |base| ensures base[i] != '.' {
      assert base[i] == tail[i - (|base| - m - 1)];
    }
    BaseExtensionOfTail(base, m);
    assert base[|base| - m..] == tail[1..];
  }

  /** A name made of a stem whose last character is neither '/' nor '.',
      then '.', then a dot-free, slash-free extension, has that extension. */
  lemma ExtnameOfDottedTail(stem: string, ext: string)
    requires |stem| > 0 && stem[|stem| - 1] != '/' && stem[|stem| - 1] != '.'
    requires '.' !in ext && '/' !in ext
    ensures Extname(stem + ['.'] + ext) == ['.'] + ext
  {
    var name := stem + ['.'] + ext;
    var m := |ext| + 1;
    var n := |name|;
    assert name[n - m..] == ['.'] + ext;
    forall i | n - m - 1 <= i < n ensures name[i] != '/' && (i > n - m ==> name[i] != '.') {
      if i == n - m - 1 {
        assert name[i] == stem[|stem| - 1];
      } else if i > n - m {
        assert name[i] == ext[i - (n - m) - 1];
      }
    }
    assert name[n - m - 1] == stem[|stem| - 1];
    ExtnameOfLongTail(name, m);
  }

  // ---------------------------------------------------------------------------
  // parseInt(s) with no radix

  /** The white space and line terminators `parseInt` skips before a number. */
  predicate IsWhiteSpace(c: char)
  {
    c == '\t' || c == '\n' || c == '\U{000B}' || c == '\U{000C}' || c == '\r' || c == ' '
    || c == '\U{00A0}' || c == '\U{1680}' || ('\U{2000}' <= c <= '\U{200A}')
    || c == '\U{2028}' || c == '\U{2029}' || c == '\U{202F}' || c == '\U{205F}'
    || c == '\U{3000}' || c == '\U{FEFF}'
  }

  function TrimStart(s: string): (r: string)
    ensures |r| <= |s| && r == s[|s| - |r|..]
    ensures |r| > 0 ==> !IsWhiteSpace(r[0])
  {
    if |s| > 0 && IsWhiteSpace(s[0]) then TrimStart(s[1..]) else s
  }

  /** The value of `c` as a digit in base `radix` (10 or 16), or -1. */
  function DigitValue(c: char, radix: nat): int
  {
    if '0' <= c <= '9' then c as int - '0' as int
    else if radix == 16 && 'a' <= c <= 'f' then c as int - 'a' as int + 10
    else if radix == 16 && 'A' <= c <= 'F' then c as int - 'A' as int + 10
    else -1
  }

  /** The length of the longest prefix of `s` made of base-`radix` digits. */
  function DigitRun(s: string, radix: nat): (n: nat)
    ensures n <= |s|
    ensures forall i | 0 <= i < n :: DigitValue(s[i], radix) >= 0
    ensures n < |s| ==> DigitValue(s[n], radix) < 0
  {
    if |s| > 0 && DigitValue(s[0], radix) >= 0 then 1 + DigitRun(s[1..], radix) else 0
  }

  /** The number written by a string of base-`radix` digits, most significant first. */
  function DigitsValue(s: string, radix: nat): nat
    requires forall i | 0 <= i < |s| :: DigitValue(s[i], radix) >= 0
  {
    if |s| == 0 then 0
    else DigitsValue(s[..|s| - 1], radix) * radix + DigitValue(s[|s| - 1], radix) as nat
  }

  /** `parseInt(s)`: `None` stands for NaN. Leading white space is skipped, an
      optional sign read, a "0x"/"0X" prefix selects base 16, and the longest
      run of digits that follows is the value. */
  function ParseInt(s: string): (r: Option<int>)
  {
    var t := TrimStart(s);
    var negative := |t| > 0 && t[0] == '-';
    var u := if |t| > 0 && (t[0] == '-' || t[0] == '+') then t[1..] else t;
    var magnitude := if HasHexPrefix(u) then LeadingDigits(u[2..], 16) else LeadingDigits(u, 10);
    match magnitude
    case None => None
    case Some(m) => Some(if negative then -(m as int) else m as int)
  }

  predicate HasHexPrefix(u: string)
  {
    |u| >= 2 && u[0] == '0' && (u[1] == 'x' || u[1] == 'X')
  }

  /** The value of the longest run of base-`radix` digits opening `w`, or
      `None` when `w` does not open with a digit. */
  function LeadingDigits(w: string, radix: nat): (r: Option<nat>)
    ensures r.None? <==> DigitRun(w, radix) == 0
  {
    var n := DigitRun(w, radix);
    if n == 0 then None
    else
      assert forall i | 0 <= i < n :: DigitValue(w[..n][i], radix) >= 0;
      Some(DigitsValue(w[..n], radix))
  }

  predicate IsDecimal(s: string)
  {
    |s| > 0 && forall i | 0 <= i < |s| :: '0' <= s[i] <= '9'
  }

  /** A plain string of decimal digits parses to the number it writes. */
  lemma ParseIntDecimal(s: string)
    requires IsDecimal(s)
    ensures ParseInt(s) == Some(DigitsValue(s, 10) as int)
  {
    assert !IsWhiteSpace(s[0]);
    assert TrimStart(s) == s;
    assert !HasHexPrefix(s);
    DigitRunAll(s, 10);
    assert s[..|s|] == s;
  }

  lemma {:induction false} DigitRunAll(s: string, radix: nat)
    requires forall i | 0 <= i < |s| :: DigitValue(s[i], radix) >= 0
    ensures DigitRun(s, radix) == |s|
  {
    if |s| > 0 {
      DigitRunAll(s[1..], radix);
    }
  }
  // ---------------------------------------------------------------------------
  // Array.prototype.findIndex / find / filter

  /** `s.findIndex(p)`: the first index whose element satisfies `p`. */
  function FindIndex<T>(s: seq<T>, p: T -> bool): (r: Option<nat>)
    ensures r.None? ==> forall i | 0 <= i < |s| :: !p(s[i])
    ensures r.Some? ==> r.value < |s| && p(s[r.value]) && forall i | 0 <= i < r.value :: !p(s[i])
  {
    if |s| == 0 then None
    else if p(s[0]) then Some(0)
    else match FindIndex(s[1..], p)
      case None => None
      case Some(k) => Some(k + 1)
  }

  /** `s.filter(p)`: the elements that satisfy `p`, in their original order. */
  function Filter<T>(s: seq<T>, p: T -> bool): (r: seq<T>)
  {
    if |s| == 0 then []
    else if p(s[0]) then [s[0]] + Filter(s[1..], p)
    else Filter(s[1..], p)
  }

  /** What survives a filter is exactly what satisfied it. */
  lemma {:induction false} FilterMembership<T>(s: seq<T>, p: T -> bool, x: T)
    ensures x in Filter(s, p) <==> x in s && p(x)
  {
    if |s| > 0 {
      FilterMembership(s[1..], p, x);
      assert s == [s[0]] + s[1..];
    }
  }

  /** A filter keeps some of the elements, each one satisfying the test. */
  lemma {:induction false} FilterSubset<T>(s: seq<T>, p: T -> bool)
    ensures |Filter(s, p)| <= |s|
    ensures forall x | x in Filter(s, p) :: x in s && p(x)
  {
    if |s| > 0 {
      FilterSubset(s[1..], p);
      assert s == [s[0]] + s[1..];
    }
  }

  /** Filtering one more element at the end extends the result by it when it
      passes. */
  lemma {:induction false} FilterSnoc<T>(s: seq<T>, x: T, p: T -> bool)
    ensures Filter(s + [x], p) == Filter(s, p) + (if p(x) then [x] else [])
  {
    if |s| == 0 {
      assert s + [x] == [x];
      assert [x][1..] == [];
    } else {
      FilterSnoc(s[1..], x, p);
      assert (s + [x])[1..] == s[1..] + [x];
    }
  }

  /** Filtering a concatenation filters each part and keeps them in order. */
  lemma {:induction false} FilterConcat<T>(a: seq<T>, b: seq<T>, p: T -> bool)
    ensures Filter(a + b, p) == Filter(a, p) + Filter(b, p)
  {
    if |a| > 0 {
      FilterConcat(a[1..], b, p);
      assert (a + b)[1..] == a[1..] + b;
    } else {
      assert a + b == b;
    }
  }

  /** A filter that every element passes changes nothing. */
  lemma {:induction false} FilterKeepsAll<T>(s: seq<T>, p: T -> bool)
    requires forall i | 0 <= i < |s| :: p(s[i])
    ensures Filter(s, p) == s
  {
    if |s| > 0 {
      FilterKeepsAll(s[1..], p);
      assert s == [s[0]] + s[1..];
    }
  }

  /** Filtering twice by the same test is filtering once. */
  lemma FilterIdempotent<T>(s: seq<T>, p: T -> bool)
    ensures Filter(Filter(s, p), p) == Filter(s, p)
  {
    var f := Filter(s, p);
    forall i | 0 <= i < |f| ensures p(f[i]) {
      FilterMembership(s, p, f[i]);
    }
    FilterKeepsAll(f, p);
  }

  /** Filtering never lengthens, and removes something exactly when some
      element fails the test. */
  lemma {:induction false} FilterLength<T>(s: seq<T>, p: T -> bool)
    ensures |Filter(s, p)| <= |s|
    ensures |Filter(s, p)| == |s| <==> forall i | 0 <= i < |s| :: p(s[i])
  {
    if |s| > 0 {
      FilterLength(s[1..], p);
      assert forall i | 1 <= i < |s| :: s[i] == s[1..][i - 1];
    }
  }
}

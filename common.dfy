/** Values and string operations shared by every module of the model: optional values,
    request values with Python truthiness, decimal rendering of ids (`str(n)` / f-strings),
    the whitespace split of `str.split()`, and the few string transformations the views
    apply (lower-casing of ASCII letters, stripping, removing spaces, substring test). */
module Common {

  datatype Option<T> = None | Some(value: T)

  /** The outcome of a step that may raise: its value, or the text of the exception. */
  datatype Result<T> = Ok(value: T) | Err(error: string)

  /** A value as it arrives in a request body (form field or JSON member). */
  datatype Value = VStr(s: string) | VBool(b: bool) | VInt(i: int) | VNull | VList(items: seq<Value>)

  /** Python truthiness of a request value. */
  predicate Truthy(v: Value)
  {
    match v
    case VStr(s) => s != ""
    case VBool(b) => b
    case VInt(i) => i != 0
    case VNull => false
    case VList(items) => items != []
  }

  /** `QueryDict.__getitem__` on a key whose values are `vs`: the last value, or `[]` when
      the list is empty. */
  function QueryItem(vs: seq<string>): (v: Value)
    ensures Truthy(v) <==> vs != [] && vs[|vs| - 1] != ""
    ensures v.VStr? || v == VList([])
  {
    if vs == [] then VList([]) else VStr(vs[|vs| - 1])
  }

  /** The value under `key`, if the request carries that key. */
  function Get(data: map<string, Value>, key: string): (v: Option<Value>)
    ensures v.Some? <==> key in data
    ensures v.Some? ==> v.value == data[key]
  {
    if key in data then Some(data[key]) else None
  }

  /** A nullable text field inside an f-string: a missing value prints as "None". */
  function OptionText(o: Option<string>): string
  {
    if o.Some? then o.value else "None"
  }

  /** A view's JSON answer `{"message": ...}` with its HTTP status. */
  datatype Reply = Reply(status: nat, message: string)

  /** Truthiness of an optional string (None and "" are both false). */
  predicate Filled(s: Option<string>)
  {
    s.Some? && s.value != ""
  }

  // ---------------------------------------------------------------------------
  // Insertion-ordered dictionaries

  predicate HasKey<K(==), V>(d: seq<(K, V)>, k: K)
  {
    exists i :: 0 <= i < |d| && d[i].0 == k
  }

  /** No key occurs twice. */
  predicate KeysDistinct<K(==), V>(d: seq<(K, V)>)
  {
    forall i, j :: 0 <= i < j < |d| ==> d[i].0 != d[j].0
  }

  /** `d[k] = v` on a Python dict: an existing key keeps its position and takes the new
      value; a new key goes last. */
  function DictSet<K(==), V>(d: seq<(K, V)>, k: K, v: V): (r: seq<(K, V)>)
    ensures |r| == (if HasKey(d, k) then |d| else |d| + 1)
    ensures !HasKey(d, k) ==> r == d + [(k, v)]
  {
    if d == [] then [(k, v)]
    else if d[0].0 == k then [(k, v)] + d[1..]
    else
      assert HasKey(d, k) <==> HasKey(d[1..], k) by {
        if HasKey(d, k) {
          var i :| 0 <= i < |d| && d[i].0 == k;
          assert d[1..][i - 1].0 == k;
        }
        if HasKey(d[1..], k) {
          var i :| 0 <= i < |d[1..]| && d[1..][i].0 == k;
          assert d[i + 1].0 == k;
        }
      }
      [d[0]] + DictSet(d[1..], k, v)
  }

  /** The value `d[k]`: the one stored with the first occurrence of `k`. */
  function DictGet<K(==), V>(d: seq<(K, V)>, k: K): (r: Option<V>)
  {
    if d == [] then None
    else if d[0].0 == k then Some(d[0].1)
    else DictGet(d[1..], k)
  }

  /** The values of a dictionary in insertion order (`d.values()`). */
  function Values<K, V>(d: seq<(K, V)>): (r: seq<V>)
    ensures |r| == |d| && forall i :: 0 <= i < |d| ==> r[i] == d[i].1
  {
    if d == [] then [] else [d[0].1] + Values(d[1..])
  }

  /** Reading a key just written gives the written value. */
  lemma {:induction false} DictGetSet<K, V>(d: seq<(K, V)>, k: K, v: V)
    ensures DictGet(DictSet(d, k, v), k) == Some(v)
  {
    if d != [] && d[0].0 != k {
      DictGetSet(d[1..], k, v);
    }
  }

  /** Writing one key leaves every other key's value as it was. */
  lemma {:induction false} DictGetOther<K, V>(d: seq<(K, V)>, k: K, v: V, k': K)
    requires k' != k
    ensures DictGet(DictSet(d, k, v), k') == DictGet(d, k')
  {
    if d != [] && d[0].0 != k && d[0].0 != k' {
      DictGetOther(d[1..], k, v, k');
    }
  }

  /** A key is found exactly when it is present. */
  lemma {:induction false} DictGetHasKey<K, V>(d: seq<(K, V)>, k: K)
    ensures DictGet(d, k).Some? <==> HasKey(d, k)
  {
    if d != [] && d[0].0 != k {
      DictGetHasKey(d[1..], k);
      if HasKey(d, k) {
        var i :| 0 <= i < |d| && d[i].0 == k;
        assert d[1..][i - 1].0 == k;
      }
      if HasKey(d[1..], k) {
        var i :| 0 <= i < |d[1..]| && d[1..][i].0 == k;
        assert d[i + 1].0 == k;
      }
    } else if d != [] {
      assert d[0].0 == k;
    }
  }

  /** Writes keep keys distinct. */
  lemma {:induction false} DictSetDistinct<K, V>(d: seq<(K, V)>, k: K, v: V)
    requires KeysDistinct(d)
    ensures KeysDistinct(DictSet(d, k, v))
  {
    if d != [] && d[0].0 != k {
      assert KeysDistinct(d[1..]) by {
        forall i, j | 0 <= i < j < |d[1..]| ensures d[1..][i].0 != d[1..][j].0 {
          assert d[1..][i] == d[i + 1] && d[1..][j] == d[j + 1];
        }
      }
      DictSetDistinct(d[1..], k, v);
      var t := DictSet(d[1..], k, v);
      forall j | 0 <= j < |t| ensures t[j].0 != d[0].0 {
        DictKeysOfSet(d[1..], k, v, j);
        if t[j].0 != k {
          var i :| 0 <= i < |d[1..]| && d[1..][i].0 == t[j].0;
          assert d[i + 1].0 == t[j].0;
        }
      }
    } else if d != [] {
      forall i, j | 0 <= i < j < |DictSet(d, k, v)|
        ensures DictSet(d, k, v)[i].0 != DictSet(d, k, v)[j].0
      {
        assert DictSet(d, k, v)[j] == d[j];
        if i > 0 { assert DictSet(d, k, v)[i] == d[i]; }
      }
    }
  }

  /** Every key of a written dictionary is the written key or an old key. */
  lemma {:induction false} DictKeysOfSet<K, V>(d: seq<(K, V)>, k: K, v: V, j: nat)
    requires j < |DictSet(d, k, v)|
    ensures DictSet(d, k, v)[j].0 == k || HasKey(d, DictSet(d, k, v)[j].0)
  {
    if d != [] && d[0].0 != k && j > 0 {
      DictKeysOfSet(d[1..], k, v, j - 1);
      var t := DictSet(d[1..], k, v);
      if t[j - 1].0 != k {
        var i :| 0 <= i < |d[1..]| && d[1..][i].0 == t[j - 1].0;
        assert d[i + 1].0 == t[j - 1].0;
      }
    } else if d != [] && d[0].0 != k {
      assert DictSet(d, k, v)[0] == d[0];
    } else if d != [] && j > 0 {
      assert DictSet(d, k, v)[j] == d[j];
    }
  }

  // ---------------------------------------------------------------------------
  // Decimal rendering of natural numbers

  predicate IsDigit(c: char)
  {
    '0' <= c <= '9'
  }

  predicate AllDigits(s: string)
  {
    forall i :: 0 <= i < |s| ==> IsDigit(s[i])
  }

  function DigitChar(d: nat): (c: char)
    requires d < 10
    ensures IsDigit(c)
  {
    "0123456789"[d]
  }

  /** `str(n)` for a natural number: its decimal digits, most significant first. */
  function NatToString(n: nat): (s: string)
    ensures |s| >= 1 && AllDigits(s)
    ensures n >= 10 <==> |s| >= 2
  {
    if n < 10 then [DigitChar(n)] else NatToString(n / 10) + [DigitChar(n % 10)]
  }

  /** `str(i)` for an integer: a minus sign before the digits of a negative one. */
  function IntToString(i: int): (s: string)
    ensures |s| >= 1 && (s[0] == '-' <==> i < 0)
    ensures i >= 0 ==> s == NatToString(i)
    ensures i < 0 ==> s[1..] == NatToString(-i)
  {
    if i >= 0 then NatToString(i) else "-" + NatToString(-i)
  }

  /** An optional minus sign followed by decimal digits: the text `int()` reads
      without stripping. */
  predicate AllDigitsAfterSign(s: string)
  {
    s != [] && (if s[0] == '-' then |s| >= 2 && AllDigits(s[1..]) else AllDigits(s))
  }

  const NotANumber := "invalid literal for int() with base 10"

  /** `int(request.query_params.get("page", 1))`, as both paginated views read it: 1 when
      no page is given, the value `int()` reads from the text, and ValueError when it reads
      none. */
  function PageNumber(q: Option<string>): (r: Result<int>)
    ensures q.None? ==> r == Ok(1)
    ensures r.Err? <==> q.Some? && IntLiteral(q.value).None?
    ensures q.Some? && r.Ok? ==> r.value == IntLiteral(q.value).value
    ensures r.Err? ==> r.error == NotANumber
  {
    if q.None? then Ok(1)
    else
      match IntLiteral(q.value)
      case None => Err(NotANumber)
      case Some(k) => Ok(k)
  }

  /** A page number sent as `str(n)` is read back as `n`. */
  lemma PageNumberOfPrinted(n: int)
    ensures PageNumber(Some(IntToString(n))) == Ok(n)
  {
    IntLiteralOfPrinted(n);
  }

  /** Different integers print differently. */
  lemma {:induction false} IntToStringInjective(a: int, b: int)
    requires IntToString(a) == IntToString(b)
    ensures a == b
  {
    if a < 0 && b < 0 {
      var x: nat := -a;
      var y: nat := -b;
      assert NatToString(x) == IntToString(a)[1..] == NatToString(y);
      NatToStringInjective(x, y);
    } else if a >= 0 && b >= 0 {
      NatToStringInjective(a, b);
    }
  }

  /** The value of a string of decimal digits. */
  function DecimalValue(s: string): (n: nat)
    requires AllDigits(s)
  {
    if s == [] then 0
    else DecimalValue(s[..|s| - 1]) * 10 + (s[|s| - 1] as int - '0' as int)
  }

  /** Reading back a printed number gives the number. */
  lemma {:induction false} DecimalValueOfNatToString(n: nat)
    ensures DecimalValue(NatToString(n)) == n
  {
    if n >= 10 {
      var s := NatToString(n);
      assert s[..|s| - 1] == NatToString(n / 10);
      DecimalValueOfNatToString(n / 10);
    }
  }

  /** How Django reads a request value as an integer key, by `int()`: an int as it is, a
      boolean as 0 or 1, a string as `int()` reads its text. Null, a list and a string
      `int()` cannot read are no key: the lookup raises. */
  function KeyOf(v: Value): (k: Option<int>)
    ensures v.VInt? ==> k == Some(v.i)
    ensures v.VBool? ==> k == Some(if v.b then 1 else 0)
    ensures v.VStr? ==> k == IntLiteral(v.s)
    ensures v.VNull? || v.VList? ==> k.None?
  {
    match v
    case VInt(i) => Some(i)
    case VBool(b) => Some(if b then 1 else 0)
    case VStr(s) => IntLiteral(s)
    case _ => None
  }

  /** An id sent as its decimal text names the same row as the id itself. */
  lemma KeyOfPrinted(n: nat)
    ensures KeyOf(VStr(NatToString(n))) == Some(n) && KeyOf(VInt(n)) == Some(n)
  {
    IntLiteralOfPrinted(n);
  }

  /** Python's `str()` of a request value, for the values that are not lists (a list's
      `str()` is not rendered). */
  function PyStr(v: Value): (s: Option<string>)
    ensures s.None? <==> v.VList?
    ensures v.VStr? ==> s == Some(v.s)
    ensures v.VInt? ==> s == Some(IntToString(v.i))
  {
    match v
    case VStr(t) => Some(t)
    case VInt(i) => Some(IntToString(i))
    case VBool(b) => Some(if b then "True" else "False")
    case VNull => Some("None")
    case VList(_) => None
  }

  lemma DigitCharInjective(a: nat, b: nat)
    requires a < 10 && b < 10
    ensures DigitChar(a) == DigitChar(b) ==> a == b
  {
  }

  /** Different numbers print differently: `str` is injective on naturals. */
  lemma {:induction false} NatToStringInjective(a: nat, b: nat)
    requires NatToString(a) == NatToString(b)
    ensures a == b
  {
    var sa, sb := NatToString(a), NatToString(b);
    if a < 10 && b < 10 {
      DigitCharInjective(a, b);
    } else if a >= 10 && b >= 10 {
      assert sa[|sa| - 1] == sb[|sb| - 1];
      DigitCharInjective(a % 10, b % 10);
      assert sa[..|sa| - 1] == NatToString(a / 10);
      assert sb[..|sb| - 1] == NatToString(b / 10);
      NatToStringInjective(a / 10, b / 10);
    }
  }

  lemma SeparatorPosition(x: string, y: string, x': string, y': string, sep: char)
    requires AllDigits(x') && !IsDigit(sep) && |x| < |x'|
    ensures x + [sep] + y != x' + [sep] + y'
  {
    assert (x + [sep] + y)[|x|] == sep;
    assert (x' + [sep] + y')[|x|] == x'[|x|];
  }

  /** Two digit strings joined by a non-digit separator can be split back apart. */
  lemma SplitAtSeparator(x: string, y: string, x': string, y': string, sep: char)
    requires AllDigits(x) && AllDigits(x') && !IsDigit(sep)
    requires x + [sep] + y == x' + [sep] + y'
    ensures x == x' && y == y'
  {
    var l, r := x + [sep] + y, x' + [sep] + y';
    if |x| < |x'| {
      SeparatorPosition(x, y, x', y', sep);
      assert false;
    } else if |x'| < |x| {
      SeparatorPosition(x', y', x, y, sep);
      assert false;
    }
    assert x == l[..|x|] && x' == r[..|x'|];
    assert y == l[|x| + 1..] && y' == r[|x'| + 1..];
  }

  // ---------------------------------------------------------------------------
  // Whitespace and `str.split()`

  /** The characters for which Python's `str.isspace()` holds, which are the ones `strip()`
      and `split()` treat as whitespace: the ASCII controls 9-13 and 28-31, the space, and
      the Unicode separators. */
  predicate IsSpace(c: char)
  {
    ('\t' <= c <= '\r') || ('\U{1C}' <= c <= ' ') || c == '\U{85}' || c == '\U{A0}'
    || c == '\U{1680}' || ('\U{2000}' <= c <= '\U{200A}') || c == '\U{2028}' || c == '\U{2029}'
    || c == '\U{202F}' || c == '\U{205F}' || c == '\U{3000}'
  }

  predicate AllSpace(s: string)
  {
    forall i :: 0 <= i < |s| ==> IsSpace(s[i])
  }

  predicate NoSpace(s: string)
  {
    forall i :: 0 <= i < |s| ==> !IsSpace(s[i])
  }

  /** Length of the longest prefix of `s` without whitespace. */
  function WordLength(s: string): (n: nat)
    ensures n <= |s| && NoSpace(s[..n])
    ensures n < |s| ==> IsSpace(s[n])
  {
    if s == [] || IsSpace(s[0]) then 0
    else
      var m := WordLength(s[1..]);
      assert s[..1 + m] == [s[0]] + s[1..][..m];
      1 + m
  }

  /** `s.split()`: the maximal runs of non-whitespace characters, in order. */
  function Words(s: string): (ws: seq<string>)
    decreases |s|
  {
    if s == [] then []
    else if IsSpace(s[0]) then Words(s[1..])
    else
      var n := WordLength(s);
      [s[..n]] + Words(s[n..])
  }

  /** Every word of a split is non-empty and holds no whitespace. */
  lemma {:induction false} WordsAreWords(s: string)
    ensures forall i :: 0 <= i < |Words(s)| ==> Words(s)[i] != [] && NoSpace(Words(s)[i])
    decreases |s|
  {
    if s == [] {
    } else if IsSpace(s[0]) {
      WordsAreWords(s[1..]);
    } else {
      var n := WordLength(s);
      WordsAreWords(s[n..]);
    }
  }

  lemma {:induction false} WordsOfLeadingSpaces(sp: string, s: string)
    requires AllSpace(sp)
    ensures Words(sp + s) == Words(s)
    decreases |sp|
  {
    if sp != [] {
      assert (sp + s)[0] == sp[0] && (sp + s)[1..] == sp[1..] + s;
      assert IsSpace(sp[0]);
      assert Words(sp + s) == Words(sp[1..] + s);
      assert AllSpace(sp[1..]) by {
        forall i | 0 <= i < |sp[1..]| ensures IsSpace(sp[1..][i]) {
          assert sp[1..][i] == sp[i + 1];
        }
      }
      WordsOfLeadingSpaces(sp[1..], s);
    } else {
      assert sp + s == s;
    }
  }

  lemma {:induction false} WordLengthOfWord(w: string, rest: string)
    requires NoSpace(w)
    requires rest == [] || IsSpace(rest[0])
    ensures WordLength(w + rest) == |w|
    decreases |w|
  {
    if w != [] {
      assert (w + rest)[1..] == w[1..] + rest;
      WordLengthOfWord(w[1..], rest);
    }
  }

  /** A non-empty whitespace-free word, a run of whitespace and another such word split
      into exactly those two words. */
  lemma TwoWords(a: string, sp: string, b: string)
    requires a != [] && b != [] && NoSpace(a) && NoSpace(b)
    requires sp != [] && AllSpace(sp)
    ensures Words(a + sp + b) == [a, b]
  {
    var s := a + sp + b;
    WordLengthOfWord(a, sp + b);
    assert s == a + (sp + b);
    assert s[..|a|] == a && s[|a|..] == sp + b;
    WordsOfLeadingSpaces(sp, b);
    WordLengthOfWord(b, []);
    assert b + [] == b;
    assert b[..|b|] == b && b[|b|..] == [];
  }

  /** Python's `str.strip()`: `s` without its leading and trailing whitespace. */
  function Strip(s: string): (r: string)
    ensures |r| <= |s|
    ensures r != [] ==> !IsSpace(r[0]) && !IsSpace(r[|r| - 1])
    decreases |s|
  {
    if s == [] then []
    else if IsSpace(s[0]) then Strip(s[1..])
    else if IsSpace(s[|s| - 1]) then Strip(s[..|s| - 1])
    else s
  }

  /** `strip()` removes whitespace from the two ends and nothing else: its result is the
      slice `s[i..j]`, with only whitespace before `i` and from `j` on. */
  lemma {:induction false} StripIsSlice(s: string) returns (i: nat, j: nat)
    ensures i <= j <= |s| && Strip(s) == s[i..j]
    ensures AllSpace(s[..i]) && AllSpace(s[j..])
    decreases |s|
  {
    if s == [] {
      i, j := 0, 0;
    } else if IsSpace(s[0]) {
      var i', j' := StripIsSlice(s[1..]);
      i, j := StripFront(s, i', j');
    } else if IsSpace(s[|s| - 1]) {
      var i', j' := StripIsSlice(s[..|s| - 1]);
      i, j := StripBack(s, i', j');
    } else {
      i, j := 0, |s|;
      assert s[i..j] == s;
    }
  }

  lemma StripFront(s: string, i': nat, j': nat) returns (i: nat, j: nat)
    requires s != [] && IsSpace(s[0])
    requires i' <= j' <= |s| - 1 && Strip(s[1..]) == s[1..][i'..j']
    requires AllSpace(s[1..][..i']) && AllSpace(s[1..][j'..])
    ensures i <= j <= |s| && Strip(s) == s[i..j]
    ensures AllSpace(s[..i]) && AllSpace(s[j..])
  {
    var t := s[1..];
    i, j := i' + 1, j' + 1;
    assert forall k :: 0 <= k < j - i ==> s[i..j][k] == t[i'..j'][k];
    assert s[i..j] == t[i'..j'];
    assert s[j..] == t[j'..];
    SpacePrefixStep(s, i');
  }

  lemma SpacePrefixStep(s: string, n: nat)
    requires n < |s| && IsSpace(s[0]) && AllSpace(s[1..][..n])
    ensures AllSpace(s[..n + 1])
  {
    assert forall k :: 0 <= k < n ==> s[..n + 1][k + 1] == s[1..][..n][k];
  }

  lemma StripBack(s: string, i': nat, j': nat) returns (i: nat, j: nat)
    requires s != [] && !IsSpace(s[0]) && IsSpace(s[|s| - 1])
    requires i' <= j' <= |s| - 1 && Strip(s[..|s| - 1]) == s[..|s| - 1][i'..j']
    requires AllSpace(s[..|s| - 1][..i']) && AllSpace(s[..|s| - 1][j'..])
    ensures i <= j <= |s| && Strip(s) == s[i..j]
    ensures AllSpace(s[..i]) && AllSpace(s[j..])
  {
    var t := s[..|s| - 1];
    i, j := i', j';
    assert s[i..j] == t[i..j];
    assert s[..i] == t[..i];
    assert s[j..] == t[j..] + [s[|s| - 1]];
  }

  /** Surrounding whitespace does not change what `strip()` leaves. */
  lemma StripPadded(pre: string, s: string, post: string)
    requires AllSpace(pre) && AllSpace(post)
    ensures Strip(pre + s + post) == Strip(s)
  {
    assert pre + s + post == pre + (s + post);
    StripLeading(pre, s + post);
    StripTrailing(s, post);
  }

  lemma {:induction false} StripLeading(pre: string, t: string)
    requires AllSpace(pre)
    ensures Strip(pre + t) == Strip(t)
  {
    if pre != [] {
      var x := pre + t;
      assert IsSpace(x[0]) && x[1..] == pre[1..] + t;
      StripLeading(pre[1..], t);
    } else {
      assert pre + t == t;
    }
  }

  lemma {:induction false} StripTrailing(t: string, post: string)
    requires AllSpace(post)
    ensures Strip(t + post) == Strip(t)
    decreases |t| + |post|
  {
    var x := t + post;
    if t == [] {
      assert x == post;
      StripAllSpace(post);
    } else if IsSpace(t[0]) {
      assert x[0] == t[0] && x[1..] == t[1..] + post;
      StripTrailing(t[1..], post);
    } else if post != [] {
      var y := post[..|post| - 1];
      assert x[0] == t[0] && IsSpace(x[|x| - 1]) && x[..|x| - 1] == t + y;
      StripTrailing(t, y);
    } else {
      assert x == t;
    }
  }

  lemma {:induction false} StripAllSpace(s: string)
    requires AllSpace(s)
    ensures Strip(s) == []
  {
    if s != [] {
      StripAllSpace(s[1..]);
    }
  }

  // ---------------------------------------------------------------------------
  // Python's int() of a text

  /** An optional `+` or `-` sign followed by at least one decimal digit. */
  predicate SignedDigits(t: string)
  {
    t != [] && (if t[0] == '-' || t[0] == '+' then |t| >= 2 && AllDigits(t[1..]) else AllDigits(t))
  }

  /** Python's `int()` of a text in ASCII digits: the surrounding whitespace is stripped and
      what remains must be an optional sign followed by decimal digits; otherwise it raises
      ValueError (None). */
  function IntLiteral(s: string): (k: Option<int>)
    ensures k.Some? <==> SignedDigits(Strip(s))
    ensures k.Some? && Strip(s)[0] == '-' ==> k.value <= 0
    ensures k.Some? && Strip(s)[0] != '-' ==> k.value >= 0
  {
    var t := Strip(s);
    if !SignedDigits(t) then None
    else if t[0] == '-' then Some(- (DecimalValue(t[1..]) as int))
    else if t[0] == '+' then Some(DecimalValue(t[1..]))
    else Some(DecimalValue(t))
  }

  /** `int(str(i)) == i`. */
  lemma IntLiteralOfPrinted(i: int)
    ensures IntLiteral(IntToString(i)) == Some(i)
  {
    var s := IntToString(i);
    var d := if i >= 0 then i else -i;
    DecimalValueOfNatToString(d);
    assert IsDigit(s[|s| - 1]);
    assert !IsSpace(s[0]) && !IsSpace(s[|s| - 1]);
    assert Strip(s) == s;
  }

  /** `int()` ignores surrounding whitespace and reads a `+` sign. */
  lemma IntLiteralPadded(pre: string, s: string, post: string)
    requires AllSpace(pre) && AllSpace(post)
    ensures IntLiteral(pre + s + post) == IntLiteral(s)
  {
    StripPadded(pre, s, post);
  }

  /** `int("+" + str(n)) == n` and `int("-" + str(n)) == -n`. */
  lemma IntLiteralSigned(n: nat)
    ensures IntLiteral("+" + NatToString(n)) == Some(n as int)
    ensures IntLiteral("-" + NatToString(n)) == Some(- (n as int))
  {
    DecimalValueOfNatToString(n);
    SignedLiteral('+', n);
    SignedLiteral('-', n);
    assert "+" + NatToString(n) == ['+'] + NatToString(n);
    assert "-" + NatToString(n) == ['-'] + NatToString(n);
  }

  lemma SignedLiteral(sign: char, n: nat)
    requires sign == '+' || sign == '-'
    ensures var t := [sign] + NatToString(n);
            Strip(t) == t && t[1..] == NatToString(n) && SignedDigits(t)
  {
    var t := [sign] + NatToString(n);
    assert t[1..] == NatToString(n);
    assert IsDigit(t[|t| - 1]);
  }

  // ---------------------------------------------------------------------------
  // Case and character filters

  function LowerChar(c: char): (d: char)
    ensures !('A' <= d <= 'Z')
  {
    if 'A' <= c <= 'Z' then (c as int + 32) as char else c
  }

  /** `s.lower()` for ASCII letters; every other character is kept. */
  function Lower(s: string): (r: string)
    ensures |r| == |s| && forall i :: 0 <= i < |s| ==> r[i] == LowerChar(s[i])
  {
    if s == [] then [] else [LowerChar(s[0])] + Lower(s[1..])
  }

  /** A subset is no larger than its superset. */
  lemma SubsetCardinality<T>(a: set<T>, b: set<T>)
    requires a <= b
    ensures |a| <= |b|
  {
    if a != {} {
      var x :| x in a;
      SubsetCardinality(a - {x}, b - {x});
    }
  }

  /** `s.replace(" ", "")`. */
  function RemoveSpaces(s: string): (r: string)
    ensures |r| <= |s|
    ensures forall i :: 0 <= i < |r| ==> r[i] != ' '
    ensures forall c :: c != ' ' ==> (c in r <==> c in s)
    ensures forall c :: c != ' ' ==> multiset(r)[c] == multiset(s)[c]
  {
    if s == [] then []
    else
      assert s == [s[0]] + s[1..];
      (if s[0] == ' ' then [] else [s[0]]) + RemoveSpaces(s[1..])
  }

  /** Removing the spaces of two pieces one at a time is removing them from the whole:
      the kept characters stay in their order. */
  lemma {:induction false} RemoveSpacesAppend(a: string, b: string)
    ensures RemoveSpaces(a + b) == RemoveSpaces(a) + RemoveSpaces(b)
  {
    if a == [] {
      assert a + b == b;
    } else {
      assert (a + b)[0] == a[0];
      assert (a + b)[1..] == a[1..] + b;
      RemoveSpacesAppend(a[1..], b);
    }
  }

  /** A text without spaces is kept as it is. */
  lemma {:induction false} RemoveSpacesNoSpace(s: string)
    requires forall i :: 0 <= i < |s| ==> s[i] != ' '
    ensures RemoveSpaces(s) == s
  {
    if s != [] {
      RemoveSpacesNoSpace(s[1..]);
    }
  }

  /** `sub` occurs in `s` starting at position `k`. */
  predicate OccursAt(s: string, sub: string, k: nat)
  {
    k + |sub| <= |s| && s[k..k + |sub|] == sub
  }

  /** `sub in s` for strings, scanning from the left. */
  predicate Contains(s: string, sub: string)
    decreases |s|
  {
    |sub| <= |s| && (s[..|sub|] == sub || Contains(s[1..], sub))
  }

  /** The scan agrees with the positional definition of a substring. */
  lemma {:induction false} ContainsIff(s: string, sub: string)
    ensures Contains(s, sub) <==> exists k: nat :: OccursAt(s, sub, k)
    decreases |s|
  {
    if |sub| <= |s| && s[..|sub|] != sub {
      ContainsIff(s[1..], sub);
      if Contains(s[1..], sub) {
        var k: nat :| OccursAt(s[1..], sub, k);
        assert s[k + 1..k + 1 + |sub|] == s[1..][k..k + |sub|];
        assert OccursAt(s, sub, k + 1);
      }
      if exists k: nat :: OccursAt(s, sub, k) {
        var k: nat :| OccursAt(s, sub, k);
        assert k != 0;
        assert s[1..][k - 1..k - 1 + |sub|] == s[k..k + |sub|];
        assert OccursAt(s[1..], sub, k - 1);
      }
    } else if |sub| <= |s| {
      assert OccursAt(s, sub, 0);
    } else {
      forall k: nat ensures !OccursAt(s, sub, k) {
      }
    }
  }

  /** Index of the last occurrence of `c` in `s`, if any (`s.rsplit(c, 1)`). */
  function LastIndexOf(s: string, c: char): (r: Option<nat>)
    ensures r.Some? ==> r.value < |s| && s[r.value] == c
                        && forall j :: r.value < j < |s| ==> s[j] != c
    ensures r.None? ==> c !in s
  {
    if s == [] then None
    else if s[|s| - 1] == c then Some(|s| - 1)
    else LastIndexOf(s[..|s| - 1], c)
  }

  // ---------------------------------------------------------------------------
  // Counting

  function Min(a: nat, b: nat): nat
  {
    if a <= b then a else b
  }

  /** Sums a sequence of integers. */
  function Sum(xs: seq<int>): int
  {
    if xs == [] then 0 else Sum(xs[..|xs| - 1]) + xs[|xs| - 1]
  }

  /** Whether a sequence holds no element twice. */
  predicate Distinct<T(==)>(xs: seq<T>)
  {
    forall i, j :: 0 <= i < j < |xs| ==> xs[i] != xs[j]
  }
}

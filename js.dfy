// The small part of JavaScript's value and string semantics that the route
// handlers depend on: truthiness, strict equality against strings,
// `startsWith`, `includes`, `split(sep).pop()`, `trim()` and template
// interpolation of nullish values.

module Js {

  datatype Option<+T> = None | Some(value: T)

  /** A JSON-decoded request value, as far as the handlers look at it.
      Numbers are integers here; `Obj` stands for any object or array. */
  datatype JsValue = Undefined | Null | Bool(b: bool) | Num(n: int) | Str(s: string) | Obj

  /** A body field the handlers only ever store as text: a string or nullish. */
  type JsText = v: JsValue | v.Undefined? || v.Null? || v.Str? witness Undefined

  /** A body field the handlers only ever store as a number: a number or nullish. */
  type JsNumber = v: JsValue | v.Undefined? || v.Null? || v.Num? witness Undefined

  /** JavaScript truthiness (`if (v)`, `!v`, `v || d`). */
  predicate Truthy(v: JsValue)
  {
    match v
    case Undefined => false
    case Null => false
    case Bool(b) => b
    case Num(n) => n != 0
    case Str(s) => s != ""
    case Obj => true
  }

  /** `${v}` for a text field: nullish values print as their names. */
  function Interpolate(v: JsText): (r: string)
    ensures v.Str? ==> r == v.s
    ensures v.Undefined? ==> r == "undefined"
    ensures v.Null? ==> r == "null"
  {
    match v
    case Str(s) => s
    case Undefined => "undefined"
    case Null => "null"
  }

  /** `s.startsWith(prefix)` */
  predicate StartsWith(s: string, prefix: string)
  {
    |prefix| <= |s| && s[..|prefix|] == prefix
  }

  /** `s.includes(sub)`: some suffix of `s` starts with `sub`. */
  predicate Contains(s: string, sub: string)
    decreases |s|
  {
    StartsWith(s, sub) || (|s| > 0 && Contains(s[1..], sub))
  }

  lemma {:induction false} ContainsAt(s: string, sub: string, i: nat)
    requires i + |sub| <= |s| && s[i..i + |sub|] == sub
    ensures Contains(s, sub)
    decreases i
  {
    if i == 0 {
      assert s[..|sub|] == s[0..|sub|];
    } else {
      assert s[1..][i - 1..i - 1 + |sub|] == s[i..i + |sub|];
      ContainsAt(s[1..], sub, i - 1);
    }
  }

  /** `s.split(sep)` for a one-character separator. */
  function Split(s: string, sep: char): (parts: seq<string>)
    ensures |parts| >= 1
    decreases |s|
  {
    if |s| == 0 then [""]
    else if s[0] == sep then [""] + Split(s[1..], sep)
    else
      var rest := Split(s[1..], sep);
      [[s[0]] + rest[0]] + rest[1..]
  }

  /** Splitting a string one character longer. */
  lemma SplitCons(c: char, s: string, sep: char)
    ensures Split([c] + s, sep) ==
      if c == sep then [""] + Split(s, sep) else [[c] + Split(s, sep)[0]] + Split(s, sep)[1..]
  {
    assert ([c] + s)[1..] == s;
  }

  /** `parts.join(sep)`, the inverse of `Split`. */
  function Join(parts: seq<string>, sep: char): string
    requires |parts| >= 1
    decreases |parts|
  {
    if |parts| == 1 then parts[0] else parts[0] + [sep] + Join(parts[1..], sep)
  }

  /** Putting a character in front of the first piece puts it in front of the join. */
  lemma JoinPrepend(c: char, parts: seq<string>, sep: char)
    requires |parts| >= 1
    ensures Join([[c] + parts[0]] + parts[1..], sep) == [c] + Join(parts, sep)
  {
    var q := [[c] + parts[0]] + parts[1..];
    assert q[1..] == parts[1..];
    if |parts| > 1 {
      var tail := Join(parts[1..], sep);
      assert Join(q, sep) == ([c] + parts[0]) + [sep] + tail;
      assert ([c] + parts[0]) + [sep] + tail == [c] + (parts[0] + [sep] + tail);
    }
  }

  /** Joining the pieces of a split gives the original string back. */
  lemma {:induction false} SplitJoin(s: string, sep: char)
    ensures Join(Split(s, sep), sep) == s
    decreases |s|
  {
    if |s| > 0 {
      SplitJoin(s[1..], sep);
      SplitCons(s[0], s[1..], sep);
      assert [s[0]] + s[1..] == s;
      if s[0] != sep {
        JoinPrepend(s[0], Split(s[1..], sep), sep);
      }
    }
  }

  /** No piece of a split contains the separator. */
  lemma {:induction false} SplitPiecesFree(s: string, sep: char)
    ensures forall k :: 0 <= k < |Split(s, sep)| ==> sep !in Split(s, sep)[k]
    decreases |s|
  {
    if |s| > 0 {
      SplitPiecesFree(s[1..], sep);
      var rest := Split(s[1..], sep);
      if s[0] == sep {
        assert Split(s, sep) == [""] + rest;
      } else {
        var parts := [[s[0]] + rest[0]] + rest[1..];
        assert parts == Split(s, sep);
        forall k | 0 <= k < |parts|
          ensures sep !in parts[k]
        {
          if k > 0 {
            assert parts[k] == rest[k];
          } else {
            assert sep !in rest[0];
          }
        }
      }
    }
  }

  /** A string without the separator splits into itself alone. */
  lemma SplitSingle(s: string, sep: char)
    ensures |Split(s, sep)| == 1 <==> sep !in s
  {
    var parts := Split(s, sep);
    SplitJoin(s, sep);
    SplitPiecesFree(s, sep);
    if |parts| >= 2 {
      SepInJoin(parts, sep);
    } else {
      assert sep !in parts[0];
    }
  }

  /** `s.split(sep).pop()`: the last piece; never undefined, since a split
      always has at least one piece. */
  function LastPiece(s: string, sep: char): (r: string)
  {
    var parts := Split(s, sep);
    parts[|parts| - 1]
  }

  /** The last piece is the longest suffix without the separator: it is the
      whole string when the separator does not occur, and otherwise the text
      after the last occurrence. */
  lemma {:induction false} LastPieceIsTextAfterLastSeparator(s: string, sep: char)
    ensures var r := LastPiece(s, sep);
      && |r| <= |s|
      && s[|s| - |r|..] == r
      && sep !in r
      && (sep !in s ==> r == s)
      && (sep in s ==> |r| < |s| && s[|s| - |r| - 1] == sep)
    decreases |s|
  {
    var r := LastPiece(s, sep);
    if |s| == 0 {
    } else {
      LastPieceIsTextAfterLastSeparator(s[1..], sep);
      var rest := Split(s[1..], sep);
      var t := LastPiece(s[1..], sep);
      assert t == rest[|rest| - 1];
      if s[0] == sep {
        assert Split(s, sep) == [""] + rest;
        assert r == t;
        assert s[|s| - |r|..] == s[1..][|s| - 1 - |t|..];
      } else {
        var parts := [[s[0]] + rest[0]] + rest[1..];
        assert parts == Split(s, sep);
        SplitSingle(s[1..], sep);
        if |rest| == 1 {
          assert r == [s[0]] + t;
          assert s == [s[0]] + s[1..];
          assert sep !in s;
        } else {
          assert r == t;
          assert s[|s| - |r|..] == s[1..][|s| - 1 - |t|..];
          assert sep in s by {
            var j :| 0 <= j < |s[1..]| && s[1..][j] == sep;
            assert s[j + 1] == sep;
          }
        }
      }
    }
  }

  lemma SepInJoin(parts: seq<string>, sep: char)
    requires |parts| >= 2
    ensures sep in Join(parts, sep)
  {
    assert Join(parts, sep) == parts[0] + [sep] + Join(parts[1..], sep);
    assert Join(parts, sep)[|parts[0]|] == sep;
  }

  /** The characters `String.prototype.trim` removes: WhiteSpace and
      LineTerminator of ECMA-262 (tab, vertical tab, form feed, space,
      no-break space, the byte order mark, the Zs category, LF, CR and the
      line and paragraph separators). */
  predicate IsJsSpace(c: char)
  {
    var n := c as int;
    || (0x09 <= n <= 0x0D) || n == 0x20 || n == 0xA0 || n == 0x1680
    || (0x2000 <= n <= 0x200A) || n == 0x2028 || n == 0x2029 || n == 0x202F
    || n == 0x205F || n == 0x3000 || n == 0xFEFF
  }

  function TrimStart(s: string): (r: string)
    decreases |s|
  {
    if |s| > 0 && IsJsSpace(s[0]) then TrimStart(s[1..]) else s
  }

  function TrimEnd(s: string): (r: string)
    decreases |s|
  {
    if |s| > 0 && IsJsSpace(s[|s| - 1]) then TrimEnd(s[..|s| - 1]) else s
  }

  /** `s.trim()` */
  function Trim(s: string): (r: string)
  {
    TrimEnd(TrimStart(s))
  }

  predicate AllSpace(s: string)
  {
    forall k :: 0 <= k < |s| ==> IsJsSpace(s[k])
  }

  lemma {:induction false} TrimStartShape(s: string)
    ensures var r := TrimStart(s);
      && |r| <= |s| && r == s[|s| - |r|..] && AllSpace(s[..|s| - |r|])
      && (r != [] ==> !IsJsSpace(r[0]))
    decreases |s|
  {
    if |s| > 0 && IsJsSpace(s[0]) {
      TrimStartShape(s[1..]);
      var r := TrimStart(s[1..]);
      assert s[1..][..|s| - 1 - |r|] == s[1..|s| - |r|];
      assert s[1..][|s| - 1 - |r|..] == s[|s| - |r|..];
      var dropped := s[..|s| - |r|];
      var droppedRest := s[1..][..|s| - 1 - |r|];
      assert forall k :: 0 <= k < |droppedRest| ==> IsJsSpace(droppedRest[k]);
      forall k | 0 <= k < |dropped|
        ensures IsJsSpace(dropped[k])
      {
        if k > 0 {
          assert dropped[k] == droppedRest[k - 1];
        }
      }
    }
  }

  lemma {:induction false} TrimEndShape(s: string)
    ensures var r := TrimEnd(s);
      && |r| <= |s| && r == s[..|r|] && AllSpace(s[|r|..])
      && (r != [] ==> !IsJsSpace(r[|r| - 1]))
    decreases |s|
  {
    if |s| > 0 && IsJsSpace(s[|s| - 1]) {
      TrimEndShape(s[..|s| - 1]);
      var r := TrimEnd(s[..|s| - 1]);
      assert s[..|s| - 1][..|r|] == s[..|r|];
      assert s[..|s| - 1][|r|..] == s[|r|..|s| - 1];
      var dropped := s[|r|..];
      var droppedRest := s[..|s| - 1][|r|..];
      assert forall k :: 0 <= k < |droppedRest| ==> IsJsSpace(droppedRest[k]);
      forall k | 0 <= k < |dropped|
        ensures IsJsSpace(dropped[k])
      {
        if k < |droppedRest| {
          assert dropped[k] == droppedRest[k];
        }
      }
    }
  }

  /** `trim()` keeps a contiguous middle part of the string, drops only
      white space on either side, and leaves no white space at its ends. */
  lemma TrimShape(s: string)
    ensures var r := Trim(s);
      && (exists i, j :: 0 <= i <= j <= |s| && r == s[i..j] && AllSpace(s[..i]) && AllSpace(s[j..]))
      && (r != [] ==> !IsJsSpace(r[0]) && !IsJsSpace(r[|r| - 1]))
  {
    var t := TrimStart(s);
    TrimStartShape(s);
    TrimEndShape(t);
    var r := TrimEnd(t);
    var i := |s| - |t|;
    var j := i + |r|;
    assert t == s[i..];
    assert r == s[i..j];
    assert s[j..] == t[|r|..];
    assert 0 <= i <= j <= |s| && r == s[i..j] && AllSpace(s[..i]) && AllSpace(s[j..]);
    if r != [] {
      assert r[0] == t[0];
    }
  }

  /** `s.trim() === ""` exactly when every character of `s` is white space. */
  lemma TrimEmptyIffAllSpace(s: string)
    ensures Trim(s) == "" <==> AllSpace(s)
  {
    TrimStartShape(s);
    var t := TrimStart(s);
    TrimEndShape(t);
    if t != [] {
      // t starts with a non-space, which TrimEnd keeps.
      assert !AllSpace(t[0..]);
      assert !AllSpace(s) by {
        assert s[|s| - |t|] == t[0];
      }
    } else {
      assert s[..|s|] == s;
    }
  }

  /** Trimming twice is trimming once. */
  lemma TrimIdempotent(s: string)
    ensures Trim(Trim(s)) == Trim(s)
  {
    var r := Trim(s);
    TrimShape(s);
    if r != [] {
      assert TrimStart(r) == r;
      assert TrimEnd(r) == r;
    }
  }
}

/**
 * Models of the ECMAScript built-ins that the dashboard components lean on:
 * `Array.prototype.slice`, `String.prototype.toLowerCase`, `includes`,
 * `split(' ')`, `join`, `substring(0, n)` and `replace` with a one-character
 * string pattern. Strings are sequences of `char`.
 */
module JsBuiltins {

  datatype Option<+T> = None | Some(value: T)

  function Min(a: int, b: int): int { if a <= b then a else b }

  /** The index normalisation of `slice` (section 23.1.3.28 of ECMA-262):
      a negative index counts from the end, every index is clamped to [0, len]. */
  function RelativeIndex(k: int, len: nat): (r: nat)
    ensures r <= len
  {
    if k < 0 then (if len + k < 0 then 0 else len + k)
    else if k > len then len
    else k
  }

  /** `s.slice(start, end)`. */
  function Slice<T>(s: seq<T>, start: int, end: int): (r: seq<T>)
    ensures |r| <= |s|
    ensures start <= end ==> |r| <= end - start
    ensures 0 <= start <= end ==> |r| == Min(end, |s|) - Min(start, |s|)
    ensures 0 <= start ==> forall k :: 0 <= k < |r| ==> start + k < |s| && r[k] == s[start + k]
  {
    var from := RelativeIndex(start, |s|);
    var to := RelativeIndex(end, |s|);
    if from < to then s[from..to] else []
  }

  /** `s.substring(0, n)` for a non-negative `n`: the first `n` characters, or all of them. */
  function Take<T>(s: seq<T>, n: nat): (r: seq<T>)
    ensures |r| == Min(n, |s|)
    ensures r <= s
  {
    if |s| <= n then s else s[..n]
  }

  // ---------------------------------------------------------------------------
  // Case folding

  /** Lower-case mapping of `toLowerCase` for the characters this model folds:
      ASCII A-Z and the Latin-1 capitals U+00C0..U+00DE except U+00D7. */
  function LowerChar(c: char): char
  {
    if 'A' <= c <= 'Z' then (c as int + 32) as char
    else if 0xC0 <= c as int <= 0xDE && c as int != 0xD7 then (c as int + 32) as char
    else c
  }

  predicate IsFoldedUpper(c: char)
  {
    'A' <= c <= 'Z' || (0xC0 <= c as int <= 0xDE && c as int != 0xD7)
  }

  function ToLowerCase(s: string): (r: string)
    ensures |r| == |s|
    ensures forall i :: 0 <= i < |s| ==> !IsFoldedUpper(r[i])
    ensures forall i :: 0 <= i < |s| && IsFoldedUpper(s[i]) ==> r[i] as int == s[i] as int + 32
    ensures forall i :: 0 <= i < |s| && !IsFoldedUpper(s[i]) ==> r[i] == s[i]
  {
    seq(|s|, i requires 0 <= i < |s| => LowerChar(s[i]))
  }

  /** Lower-casing twice is lower-casing once. */
  lemma ToLowerCaseIdempotent(s: string)
    ensures ToLowerCase(ToLowerCase(s)) == ToLowerCase(s)
  {
  }

  // ---------------------------------------------------------------------------
  // Substring search

  predicate OccursAt(s: string, t: string, i: int)
  {
    0 <= i && i + |t| <= |s| && s[i..i + |t|] == t
  }

  /** `s.includes(t)`: scan every start position from the left. */
  function Includes(s: string, t: string): (b: bool)
    ensures t <= s ==> b
    ensures b ==> |t| <= |s|
    decreases |s|
  {
    if t <= s then true
    else if s == [] then false
    else Includes(s[1..], t)
  }

  /** `includes` holds exactly when `t` occurs at some position of `s`. */
  lemma {:induction false} IncludesIffOccurs(s: string, t: string)
    ensures Includes(s, t) <==> exists i :: OccursAt(s, t, i)
    decreases |s|
  {
    if t <= s {
      assert s[0..|t|] == t;
      assert OccursAt(s, t, 0);
    } else if s == [] {
    } else {
      IncludesIffOccurs(s[1..], t);
      if Includes(s[1..], t) {
        var i :| OccursAt(s[1..], t, i);
        assert s[1..][i..i + |t|] == s[i + 1..i + 1 + |t|];
        assert OccursAt(s, t, i + 1);
      }
      if exists i :: OccursAt(s, t, i) {
        var i :| OccursAt(s, t, i);
        assert !OccursAt(s, t, 0);
        assert s[1..][i - 1..i - 1 + |t|] == s[i..i + |t|];
        assert OccursAt(s[1..], t, i - 1);
      }
    }
  }

  /** Every string includes the empty string. */
  lemma IncludesEmpty(s: string)
    ensures Includes(s, "")
  {
  }

  // ---------------------------------------------------------------------------
  // split / join on a one-character separator

  /** `s.split(sep)` for a one-character separator: empty pieces are kept,
      so the result always has at least one piece. */
  function Split(s: string, sep: char): (r: seq<string>)
    ensures |r| >= 1
    ensures forall k :: 0 <= k < |r| ==> sep !in r[k]
  {
    if s == [] then [[]]
    else if s[0] == sep then [[]] + Split(s[1..], sep)
    else
      var t := Split(s[1..], sep);
      [[s[0]] + t[0]] + t[1..]
  }

  /** `pieces.join(sep)`. */
  /** The summed length of the pieces. */
  function TotalLength(pieces: seq<string>): nat
  {
    if pieces == [] then 0 else |pieces[0]| + TotalLength(pieces[1..])
  }

  function Join(pieces: seq<string>, sep: string): (r: string)
    ensures pieces != [] ==> pieces[0] <= r
    ensures pieces != [] ==> |r| >= (|pieces| - 1) * |sep|
  {
    if pieces == [] then []
    else if |pieces| == 1 then pieces[0]
    else pieces[0] + sep + Join(pieces[1..], sep)
  }

  /** The joined string is the first piece, the separator, then the join of the
      rest: it ends with the last piece and is exactly as long as the pieces
      plus one separator between each two. */
  lemma {:induction false} JoinLayout(pieces: seq<string>, sep: string)
    requires pieces != []
    ensures |pieces| >= 2 ==> Join(pieces, sep) == pieces[0] + sep + Join(pieces[1..], sep)
    ensures var r, last := Join(pieces, sep), pieces[|pieces| - 1];
      |last| <= |r| && r[|r| - |last|..] == last
    ensures |Join(pieces, sep)| == TotalLength(pieces) + (|pieces| - 1) * |sep|
    decreases |pieces|
  {
    if |pieces| >= 2 {
      JoinLayout(pieces[1..], sep);
      var r, rest := Join(pieces, sep), Join(pieces[1..], sep);
      var last := pieces[|pieces| - 1];
      assert last == pieces[1..][|pieces[1..]| - 1];
      assert r == pieces[0] + sep + rest;
      assert r[|r| - |last|..] == rest[|rest| - |last|..];
    }
  }

  /** Splitting and joining back with the same separator gives the original string. */
  lemma {:induction false} SplitJoin(s: string, sep: char)
    ensures Join(Split(s, sep), [sep]) == s
  {
    if s == [] {
    } else if s[0] == sep {
      SplitJoin(s[1..], sep);
      assert s == [sep] + s[1..];
    } else {
      var t := Split(s[1..], sep);
      SplitJoin(s[1..], sep);
      if |t| == 1 {
        assert Split(s, sep) == [[s[0]] + t[0]];
        assert s == [s[0]] + s[1..];
      } else {
        assert Split(s, sep)[1..] == t[1..];
        assert Join(t, [sep]) == t[0] + [sep] + Join(t[1..], [sep]);
        assert s == [s[0]] + s[1..];
      }
    }
  }

  // ---------------------------------------------------------------------------
  // replace with a one-character pattern

  /** `s.indexOf(a)` for a one-character string `a`, with `|s|` standing for "not found". */
  function IndexOf(s: string, a: char): (i: nat)
    ensures i <= |s|
    ensures i < |s| ==> s[i] == a
    ensures a !in s[..i]
  {
    if s == [] then 0
    else if s[0] == a then 0
    else 1 + IndexOf(s[1..], a)
  }

  /** The first occurrence is the only index with `a` and no `a` before it. */
  lemma IndexOfAt(s: string, a: char, k: nat)
    requires k < |s| && s[k] == a && a !in s[..k]
    ensures IndexOf(s, a) == k
  {
  }

  /** `s.replace(a, b)` where the pattern `a` and the replacement `b` are
      one-character strings: only the first occurrence is replaced. */
  function ReplaceFirst(s: string, a: char, b: char): (r: string)
    ensures |r| == |s|
    ensures a !in s ==> r == s
    ensures IndexOf(s, a) < |s| ==> r == s[IndexOf(s, a) := b]
  {
    if s == [] then []
    else if s[0] == a then [b] + s[1..]
    else [s[0]] + ReplaceFirst(s[1..], a, b)
  }
}

/** Character classes and the few string operations of Python's `str` and `re`
    that the parser relies on: `find`, `startswith`, `strip`, `lower`, `split`,
    and the leftmost-match search that `re.findall(...)[0]` performs.
    `\w` and `\d` are taken in their ASCII sense. */
module Text {
  import opened Outcomes

  /** `\w`: a letter, a digit or an underscore. */
  predicate IsWordChar(c: char) {
    ('a' <= c <= 'z') || ('A' <= c <= 'Z') || ('0' <= c <= '9') || c == '_'
  }

  /** `\d` */
  predicate IsDigit(c: char) {
    '0' <= c <= '9'
  }

  predicate IsUpper(c: char) {
    'A' <= c <= 'Z'
  }

  /** The characters Python's `str.isspace` accepts, which `str.strip()` removes. */
  predicate IsSpace(c: char) {
    c == ' ' || ('\t' <= c <= '\r') || ('\U{1C}' <= c <= '\U{1F}') || c == '\U{85}' || c == '\U{A0}'
    || c == '\U{1680}' || ('\U{2000}' <= c <= '\U{200A}') || c == '\U{2028}' || c == '\U{2029}'
    || c == '\U{202F}' || c == '\U{205F}' || c == '\U{3000}'
  }

  predicate AllOf(s: string, p: char -> bool) {
    forall i | 0 <= i < |s| :: p(s[i])
  }

  /** A non-empty run of `\w`, as a `(\w+)` group captures it. */
  predicate IsWord(s: string) {
    |s| > 0 && AllOf(s, IsWordChar)
  }

  /** `p` occurs in `s` at position `k`. */
  predicate LitAt(s: string, k: nat, p: string) {
    k + |p| <= |s| && forall j | 0 <= j < |p| :: s[k + j] == p[j]
  }

  /** Like LitAt, except that every `.` of `p` stands for an unescaped regex dot:
      any character but a line feed. */
  predicate WildAt(s: string, k: nat, p: string) {
    k + |p| <= |s| &&
    forall j | 0 <= j < |p| :: if p[j] == '.' then s[k + j] != '\n' else s[k + j] == p[j]
  }

  /** The end of the longest run of characters satisfying `p` that starts at `i`:
      the extent of a greedy `[...]*` that is followed by something outside its class. */
  function Span(s: string, i: nat, p: char -> bool): (e: nat)
    requires i <= |s|
    ensures i <= e <= |s|
    ensures e < |s| ==> !p(s[e])
    decreases |s| - i
  {
    if i < |s| && p(s[i]) then Span(s, i + 1, p) else i
  }

  /** Everything inside the run satisfies `p`. */
  lemma {:induction false} SpanAll(s: string, i: nat, p: char -> bool)
    requires i <= |s|
    ensures forall j | i <= j < Span(s, i, p) :: p(s[j])
    decreases |s| - i
  {
    if i < |s| && p(s[i]) {
      SpanAll(s, i + 1, p);
    }
  }

  /** The run itself, as a slice, satisfies `p` throughout. */
  lemma SpanRun(s: string, i: nat, p: char -> bool)
    requires i <= |s|
    ensures AllOf(s[i..Span(s, i, p)], p)
  {
    SpanAll(s, i, p);
    var e := Span(s, i, p);
    forall j | 0 <= j < e - i ensures p(s[i..e][j]) {
      assert s[i..e][j] == s[i + j];
    }
  }

  /** The run from `i` ends at `e` when everything in between satisfies `p` and
      the character at `e` does not. */
  lemma {:induction false} SpanExact(s: string, i: nat, e: nat, p: char -> bool)
    requires i <= e <= |s|
    requires forall j | i <= j < e :: p(s[j])
    requires e == |s| || !p(s[e])
    ensures Span(s, i, p) == e
    decreases e - i
  {
    if i < e {
      SpanExact(s, i + 1, e, p);
    }
  }

  /** A run `w` of characters satisfying `p`, written at `i` and not followed by
      another such character, is the whole run from `i`. */
  lemma SpanOver(s: string, i: nat, w: string, p: char -> bool)
    requires AllOf(w, p) && LitAt(s, i, w)
    requires i + |w| == |s| || !p(s[i + |w|])
    ensures Span(s, i, p) == i + |w| && s[i..i + |w|] == w
  {
    forall j | i <= j < i + |w| ensures p(s[j]) {
      assert s[j] == w[j - i];
    }
    SpanExact(s, i, i + |w|, p);
    LitSlice(s, i, w, 0, |w|);
    assert w[0..|w|] == w;
  }

  /** The start of a line occurs in it at 0. */
  lemma LitPrefix(x: string, y: string)
    ensures LitAt(x + y, 0, x)
  {
    forall j | 0 <= j < |x| ensures (x + y)[j] == x[j] {
    }
  }

  /** The end of a line occurs in it right after its start. */
  lemma LitAfter(x: string, y: string)
    ensures LitAt(x + y, |x|, y)
  {
    forall j | 0 <= j < |y| ensures (x + y)[|x| + j] == y[j] {
    }
  }

  /** Part of an occurrence is an occurrence of the part. */
  lemma LitSlice(s: string, k: nat, p: string, i: nat, j: nat)
    requires LitAt(s, k, p) && i <= j <= |p|
    ensures s[k + i..k + j] == p[i..j]
  {
    forall t | 0 <= t < j - i ensures s[k + i..k + j][t] == p[i..j][t] {
      assert p[i..j][t] == p[i + t];
    }
  }

  /** An occurrence of `x + y` is an occurrence of `x` followed by one of `y`. */
  lemma LitSplit(s: string, k: nat, x: string, y: string)
    requires LitAt(s, k, x + y)
    ensures LitAt(s, k, x) && LitAt(s, k + |x|, y)
  {
    forall j | 0 <= j < |x| ensures s[k + j] == x[j] {
      assert (x + y)[j] == x[j];
    }
    forall j | 0 <= j < |y| ensures s[k + |x| + j] == y[j] {
      assert (x + y)[|x| + j] == y[j];
    }
  }

  /** A literal occurrence is also an occurrence with unescaped dots. */
  lemma LitIsWild(s: string, k: nat, p: string)
    requires LitAt(s, k, p)
    ensures WildAt(s, k, p)
  {
  }

  /** The `(\w+)` group starting at `i`, taken as long as it goes. */
  function WordFrom(s: string, i: nat): (w: string)
    requires i <= |s|
    ensures AllOf(w, IsWordChar)
    ensures LitAt(s, i, w)
    ensures i + |w| == |s| || !IsWordChar(s[i + |w|])
  {
    SpanAll(s, i, IsWordChar);
    s[i..Span(s, i, IsWordChar)]
  }

  /** `s.find(p, k)`: the first position at or after `k` where `p` occurs, or -1. */
  function FindFrom(s: string, k: nat, p: string): (r: int)
    requires k <= |s|
    ensures r == -1 || (k <= r <= |s| && LitAt(s, r, p))
    ensures r == -1 ==> forall j | k <= j <= |s| :: !LitAt(s, j, p)
    ensures r >= 0 ==> forall j | k <= j < r :: !LitAt(s, j, p)
    decreases |s| - k
  {
    if LitAt(s, k, p) then k else if k == |s| then -1 else FindFrom(s, k + 1, p)
  }

  /** `s.find(p)` */
  function Find(s: string, p: string): int {
    FindFrom(s, 0, p)
  }

  /** `s.find(p) != -1` */
  predicate Contains(s: string, p: string) {
    Find(s, p) >= 0
  }

  /** `s.startswith(p)` */
  predicate StartsWith(s: string, p: string) {
    LitAt(s, 0, p)
  }

  lemma ContainsAt(s: string, p: string, k: nat)
    requires LitAt(s, k, p)
    ensures Contains(s, p)
  {
  }

  lemma NotContains(s: string, p: string)
    requires forall j | 0 <= j <= |s| :: !LitAt(s, j, p)
    ensures !Contains(s, p)
  {
  }

  /** The end of the text that remains once the whitespace before `j` is removed,
      never going below `i`. */
  function TrimEnd(s: string, i: nat, j: nat): (r: nat)
    requires i <= j <= |s|
    ensures i <= r <= j
    ensures forall k | r <= k < j :: IsSpace(s[k])
    ensures r == i || !IsSpace(s[r - 1])
    decreases j
  {
    if j > i && IsSpace(s[j - 1]) then TrimEnd(s, i, j - 1) else j
  }

  /** `s.strip()`: the whitespace at both ends removed, the middle untouched. */
  function Strip(s: string): (r: string)
    ensures r == "" || (!IsSpace(r[0]) && !IsSpace(r[|r| - 1]))
    ensures exists i, j | 0 <= i <= j <= |s| :: r == s[i..j] && AllOf(s[..i], IsSpace) && AllOf(s[j..], IsSpace)
  {
    var i := Span(s, 0, IsSpace);
    var j := TrimEnd(s, i, |s|);
    SpanAll(s, 0, IsSpace);
    assert AllOf(s[..i], IsSpace) by {
      forall k | 0 <= k < i ensures IsSpace(s[..i][k]) {
        assert s[..i][k] == s[k];
      }
    }
    assert AllOf(s[j..], IsSpace) by {
      forall k | 0 <= k < |s| - j ensures IsSpace(s[j..][k]) {
        assert s[j..][k] == s[j + k];
      }
    }
    s[i..j]
  }

  function LowerChar(c: char): char {
    if IsUpper(c) then (c as int - 'A' as int + 'a' as int) as char else c
  }

  /** `s.lower()` on ASCII letters. */
  function Lower(s: string): (r: string)
    ensures |r| == |s|
    ensures forall i | 0 <= i < |r| :: !IsUpper(r[i])
    ensures forall i | 0 <= i < |s| && !IsUpper(s[i]) :: r[i] == s[i]
    ensures forall i | 0 <= i < |s| && IsUpper(s[i]) :: r[i] == (s[i] as int - 'A' as int + 'a' as int) as char
  {
    seq(|s|, i requires 0 <= i < |s| => LowerChar(s[i]))
  }

  /** The first index of `x` in `xs` (Python's `list.index`), or -1. */
  function IndexOf<T(==)>(xs: seq<T>, x: T): (r: int)
    ensures -1 <= r < |xs|
    ensures r == -1 <==> x !in xs
    ensures r >= 0 ==> r < |xs| && xs[r] == x && x !in xs[..r]
  {
    if |xs| == 0 then -1
    else if xs[0] == x then 0
    else
      var r := IndexOf(xs[1..], x);
      if r == -1 then -1
      else
        assert xs[..r + 1] == [xs[0]] + xs[1..][..r];
        r + 1
  }

  /** A match of some pattern found by a leftmost search: where it starts and what it captured. */
  datatype Found<T> = Found(at: nat, value: T)

  /** The leftmost position at or after `k` where the matcher `m` succeeds: the
      first element of `re.findall`, when `m(s, j)` says what the pattern
      matches when it starts exactly at `j`. */
  function Search<T>(s: string, k: nat, m: (string, nat) -> Option<T>): (r: Option<Found<T>>)
    requires k <= |s|
    ensures r.Some? ==> k <= r.value.at <= |s| && m(s, r.value.at) == Some(r.value.value)
    ensures r.Some? ==> forall j | k <= j < r.value.at :: m(s, j).None?
    ensures r.None? ==> forall j | k <= j <= |s| :: m(s, j).None?
    decreases |s| - k
  {
    match m(s, k)
    case Some(v) => Some(Found(k, v))
    case None => if k == |s| then None else Search(s, k + 1, m)
  }

  /** The captures of the leftmost match of `m` in `s`. */
  function FirstMatch<T>(s: string, m: (string, nat) -> Option<T>): Option<T> {
    match Search(s, 0, m)
    case Some(f) => Some(f.value)
    case None => None
  }

  /** The leftmost match is at `at` when the matcher fails everywhere before it. */
  lemma FirstMatchAt<T>(s: string, m: (string, nat) -> Option<T>, at: nat)
    requires at <= |s| && m(s, at).Some?
    requires forall j | 0 <= j < at :: m(s, j).None?
    ensures FirstMatch(s, m) == m(s, at)
  {
  }

  /** When `m` can match nowhere but at `k`, the leftmost match is whatever it finds there. */
  lemma OnlyCandidate<T>(s: string, m: (string, nat) -> Option<T>, k: nat)
    requires k <= |s|
    requires forall j | 0 <= j <= |s| && j != k :: m(s, j).None?
    ensures FirstMatch(s, m) == m(s, k)
  {
    if m(s, k).None? {
      NoMatch(s, m);
    }
  }

  /** No match anywhere. */
  lemma NoMatch<T>(s: string, m: (string, nat) -> Option<T>)
    requires forall j | 0 <= j <= |s| :: m(s, j).None?
    ensures FirstMatch(s, m).None?
  {
  }

  /** The value `f` gives for the first line it gives one for. */
  function FirstLine<T, U(==)>(lines: seq<T>, f: T -> Option<U>): (r: Option<U>)
    ensures r.None? <==> forall i | 0 <= i < |lines| :: f(lines[i]).None?
    ensures r.Some? ==>
      exists i | 0 <= i < |lines| :: f(lines[i]) == r && forall j | 0 <= j < i :: f(lines[j]).None?
  {
    if |lines| == 0 then None
    else if f(lines[0]).Some? then f(lines[0])
    else
      var r := FirstLine(lines[1..], f);
      assert forall i | 1 <= i < |lines| :: lines[1..][i - 1] == lines[i];
      if r.Some? then
        var i :| 0 <= i < |lines[1..]| && f(lines[1..][i]) == r && forall j | 0 <= j < i :: f(lines[1..][j]).None?;
        assert f(lines[i + 1]) == r;
        r
      else r
  }

  /** `s.split(sep)` for a one-character separator: each separator closes a piece. */
  function Split(s: string, sep: char): (r: seq<string>)
    ensures |r| >= 1
    decreases |s|
  {
    if |s| == 0 then [""]
    else
      var r := Split(s[1..], sep);
      if s[0] == sep then [""] + r else [[s[0]] + r[0]] + r[1..]
  }

  /** No piece holds the separator. */
  lemma {:induction false} SplitPieces(s: string, sep: char)
    ensures forall i | 0 <= i < |Split(s, sep)| :: sep !in Split(s, sep)[i]
    decreases |s|
  {
    if |s| > 0 {
      var r := Split(s[1..], sep);
      SplitPieces(s[1..], sep);
      if s[0] != sep {
        var all := Split(s, sep);
        assert all[0] == [s[0]] + r[0];
        forall i | 1 <= i < |all| ensures sep !in all[i] {
          assert all[i] == r[i];
        }
      }
    }
  }

  /** The pieces put back together with the separator between them. */
  function Join(parts: seq<string>, sep: char): string
    requires |parts| >= 1
  {
    if |parts| == 1 then parts[0] else parts[0] + [sep] + Join(parts[1..], sep)
  }

  /** A character put in front of the first piece is put in front of the whole. */
  lemma JoinFront(c: char, parts: seq<string>, sep: char)
    requires |parts| >= 1
    ensures Join([[c] + parts[0]] + parts[1..], sep) == [c] + Join(parts, sep)
  {
    var front := [[c] + parts[0]] + parts[1..];
    assert front[1..] == parts[1..];
  }

  /** Splitting loses nothing: joining the pieces gives back the string. */
  lemma {:induction false} SplitJoin(s: string, sep: char)
    ensures Join(Split(s, sep), sep) == s
    decreases |s|
  {
    if |s| > 0 {
      var r := Split(s[1..], sep);
      SplitJoin(s[1..], sep);
      if s[0] == sep {
        assert ([""] + r)[1..] == r;
      } else {
        JoinFront(s[0], r, sep);
      }
      assert s == [s[0]] + s[1..];
    }
  }
}

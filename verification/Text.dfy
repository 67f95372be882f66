/** Strings as the host's parsers see them: order, whitespace, trimming, splitting. */
module Text {

  /** Strings in code-point order, as Rust orders `String`. */
  predicate Less(a: string, b: string) {
    b != [] && (a == [] || a[0] < b[0] || (a[0] == b[0] && Less(a[1..], b[1..])))
  }

  lemma {:induction false} LessTotal(a: string, b: string)
    ensures a == b || Less(a, b) || Less(b, a)
    ensures !(Less(a, b) && Less(b, a)) && !Less(a, a)
  {
    if a != [] && b != [] {
      LessTotal(a[1..], b[1..]);
      LessTotal(a[1..], a[1..]);
      assert a == [a[0]] + a[1..] && b == [b[0]] + b[1..];
    } else if a != [] {
      LessTotal(a[1..], a[1..]);
    }
  }

  lemma {:induction false} LessTransitive(a: string, b: string, c: string)
    requires Less(a, b) && Less(b, c)
    ensures Less(a, c)
  {
    if a != [] && a[0] == b[0] && b[0] == c[0] { LessTransitive(a[1..], b[1..], c[1..]); }
  }

  /** The first character that differs decides, and a beginning comes before the whole. */
  lemma {:induction false} LessIff(a: string, b: string)
    ensures Less(a, b) <==> exists n: nat :: LessAt(a, b, n)
  {
    if a == [] || b == [] || a[0] != b[0] {
      if Less(a, b) { assert LessAt(a, b, 0); }
      if n: nat :| LessAt(a, b, n) { assert n == 0; }
    } else {
      LessIff(a[1..], b[1..]);
      if n: nat :| LessAt(a[1..], b[1..], n) { LessLonger(a, b, n); }
      if n: nat :| LessAt(a, b, n) {
        assert n > 0;
        LessLonger(a, b, n - 1);
      }
    }
  }

  /** Equal so far, and here one ends or has the smaller character. */
  predicate LessAt(a: string, b: string, n: nat) {
    n <= |a| && n < |b| && a[..n] == b[..n] && (n == |a| || a[n] < b[n])
  }

  lemma LessLonger(a: string, b: string, n: nat)
    requires a != [] && b != [] && a[0] == b[0]
    ensures LessAt(a[1..], b[1..], n) <==> LessAt(a, b, n + 1)
  {
    if n < |a| && n < |b| {
      assert a[..n + 1] == [a[0]] + a[1..][..n] && b[..n + 1] == [b[0]] + b[1..][..n];
    }
  }

  /** Unicode White_Space, as `char::is_whitespace`. */
  predicate IsSpace(c: char) {
    var n := c as int;
    || 0x9 <= n <= 0xD || n == 0x20 || n == 0x85 || n == 0xA0 || n == 0x1680
    || 0x2000 <= n <= 0x200A || n == 0x2028 || n == 0x2029 || n == 0x202F || n == 0x205F || n == 0x3000
  }

  function TrimStart(s: string): (t: string)
    ensures t == [] || !IsSpace(t[0])
    ensures |t| <= |s| && t == s[|s| - |t|..]
    ensures forall i :: 0 <= i < |s| - |t| ==> IsSpace(s[i])
  {
    if s != [] && IsSpace(s[0]) then TrimStart(s[1..]) else s
  }

  function TrimEnd(s: string): (t: string)
    ensures t == [] || !IsSpace(t[|t| - 1])
    ensures |t| <= |s| && t == s[..|t|]
    ensures forall i :: |t| <= i < |s| ==> IsSpace(s[i])
  {
    if s != [] && IsSpace(s[|s| - 1]) then TrimEnd(s[..|s| - 1]) else s
  }

  function Trim(s: string): (t: string)
    ensures t == [] || (!IsSpace(t[0]) && !IsSpace(t[|t| - 1]))
    ensures forall c :: c in t ==> c in s
  {
    TrimEnd(TrimStart(s))
  }

  predicate Blank(s: string) {
    forall i :: 0 <= i < |s| ==> IsSpace(s[i])
  }

  /** Trimming drops white space at both ends and nothing else. */
  lemma {:induction false} TrimmedPart(s: string) returns (i: nat)
    ensures i + |Trim(s)| <= |s| && Trim(s) == s[i..i + |Trim(s)|]
    ensures Blank(s[..i]) && Blank(s[i + |Trim(s)|..])
  {
    hide IsSpace, TrimStart, TrimEnd;
    var start := TrimStart(s);
    var t := TrimEnd(start);
    i := |s| - |start|;
    SliceOfEnd(s, i, |t|);
    var rest := s[i + |t|..];
    forall j | 0 <= j < |rest| ensures IsSpace(rest[j]) {
      assert rest[j] == start[|t| + j];
    }
  }

  lemma SliceOfEnd(s: string, i: nat, n: nat)
    requires i + n <= |s|
    ensures s[i..][..n] == s[i..i + n]
  {}

  lemma TrimIdempotent(s: string)
    ensures Trim(Trim(s)) == Trim(s)
  {}

  predicate IsWord(w: string) {
    w != [] && forall i :: 0 <= i < |w| ==> !IsSpace(w[i])
  }

  /** The maximal runs of non-space characters, in order. */
  function SplitWhitespace(s: string): (words: seq<string>)
    ensures forall i :: 0 <= i < |words| ==> IsWord(words[i])
  {
    if s == [] then []
    else
      var init, last := SplitWhitespace(s[..|s| - 1]), s[|s| - 1];
      if IsSpace(last) then init
      else if |s| > 1 && !IsSpace(s[|s| - 2]) && init != []
      then init[..|init| - 1] + [init[|init| - 1] + [last]]
      else init + [[last]]
  }

  lemma SpaceIsSpace()
    ensures IsSpace(' ')
  {}

  lemma SplitNothing()
    ensures SplitWhitespace("") == []
  {}

  lemma SplitNext(s: string, c: char)
    ensures SplitWhitespace(s + [c]) ==
            var words := SplitWhitespace(s);
            if IsSpace(c) then words
            else if s != [] && !IsSpace(s[|s| - 1]) && words != []
            then words[..|words| - 1] + [words[|words| - 1] + [c]]
            else words + [[c]]
  {
    assert (s + [c])[..|s|] == s;
  }

  lemma GrowLast(words: seq<string>, w: string, c: char)
    ensures var all := words + [w]; all[..|all| - 1] + [all[|all| - 1] + [c]] == words + [w + [c]]
  {}

  lemma WordPrefix(w: string, n: nat)
    requires IsWord(w) && 0 < n <= |w|
    ensures IsWord(w[..n]) && !IsSpace(w[n - 1])
  {
    hide IsSpace;
  }

  /** A word appended after a space is split off whole. */
  lemma {:induction false} SplitLastWord(s: string, w: string)
    requires IsWord(w)
    ensures SplitWhitespace(s + " " + w) == SplitWhitespace(s) + [w]
  {
    assert w != [];
    hide SplitWhitespace, IsSpace, IsWord;
    SpaceIsSpace();
    WordPrefix(w, |w|);
    SplitNext(s, ' ');
    var n := |w| - 1;
    var init := s + " " + w[..n];
    assert s + " " + w == init + [w[n]] && w == w[..n] + [w[n]];
    SplitNext(init, w[n]);
    if n == 0 {
      assert init == s + " " && [w[n]] == w;
    } else {
      WordPrefix(w, n);
      SplitLastWord(s, w[..n]);
      assert init[|init| - 1] == w[n - 1];
      GrowLast(SplitWhitespace(s), w[..n], w[n]);
    }
  }

  lemma {:induction false} SplitOneWord(w: string)
    requires IsWord(w)
    ensures SplitWhitespace(w) == [w]
  {
    assert w != [];
    hide SplitWhitespace, IsSpace, IsWord;
    WordPrefix(w, |w|);
    var n := |w| - 1;
    assert w == w[..n] + [w[n]];
    SplitNext(w[..n], w[n]);
    if n == 0 {
      SplitNothing();
      assert w[..n] == [] && [w[n]] == w;
    } else {
      WordPrefix(w, n);
      SplitOneWord(w[..n]);
      GrowLast([], w[..n], w[n]);
      assert [] + [w[..n]] == [w[..n]] && [] + [w] == [w];
    }
  }

  /** Splitting is done at every white-space character, of whatever kind; with
      `SplitNothing` and `SplitOneWord` this leaves no choice what the words are. */
  lemma {:induction false} SplitAtSpace(a: string, c: char, b: string)
    requires IsSpace(c)
    ensures SplitWhitespace(a + [c] + b) == SplitWhitespace(a) + SplitWhitespace(b)
  {
    hide SplitWhitespace, IsSpace;
    if b == [] {
      SplitNothing();
      SplitNext(a, c);
      assert a + [c] + b == a + [c];
    } else {
      var n := |b| - 1;
      SplitAtSpace(a, c, b[..n]);
      SplitNext(b[..n], b[n]);
      SplitNext(a + [c] + b[..n], b[n]);
      assert a + [c] + b == a + [c] + b[..n] + [b[n]] && b == b[..n] + [b[n]];
      var left, right, s := SplitWhitespace(a), SplitWhitespace(b[..n]), a + [c] + b[..n];
      assert s[|s| - 1] == if n == 0 then c else b[..n][n - 1];
      if n == 0 {
        SplitNothing();
        assert b[..n] == [];
      } else if !IsSpace(b[n]) && !IsSpace(b[n - 1]) {
        SplitEndsInWord(b[..n]);
        assert (left + right)[..|left + right| - 1] == left + right[..|right| - 1];
      }
    }
  }

  lemma SplitEndsInWord(s: string)
    requires s != [] && !IsSpace(s[|s| - 1])
    ensures SplitWhitespace(s) != []
  {
    hide IsSpace;
    assert s == s[..|s| - 1] + [s[|s| - 1]];
    SplitNext(s[..|s| - 1], s[|s| - 1]);
  }

  function Join(words: seq<string>): string {
    if words == [] then "" else if |words| == 1 then words[0]
    else Join(words[..|words| - 1]) + " " + words[|words| - 1]
  }

  /** Joining words by single spaces and splitting again gives the words back. */
  lemma {:induction false} SplitJoin(words: seq<string>)
    requires forall i :: 0 <= i < |words| ==> IsWord(words[i])
    ensures SplitWhitespace(Join(words)) == words
  {
    hide SplitWhitespace, IsWord;
    if words == [] {
      SplitNothing();
    } else if |words| == 1 {
      SplitOneWord(words[0]);
      assert [words[0]] == words;
    } else {
      var init, last := words[..|words| - 1], words[|words| - 1];
      SplitJoin(init);
      SplitLastWord(Join(init), last);
      assert init + [last] == words;
    }
  }
}

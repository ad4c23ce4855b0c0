/** The text a canonical identifier is hashed from: normalized, non-empty parts joined by a separator. */
module CanonicalIds {
  const SEPARATOR: string := "||"

  // ASCII whitespace, including the information separators the host language splits on.
  predicate IsSpace(c: char) {
    c == ' ' || '\t' <= c <= '\r' || '\U{1c}' <= c <= '\U{1f}'
  }

  function LowerChar(c: char): char {
    if 'A' <= c <= 'Z' then c - 'A' + 'a' else c
  }

  function Lower(s: string): (r: string)
    ensures |r| == |s|
    ensures forall i :: 0 <= i < |r| ==> r[i] == LowerChar(s[i])
  {
    if s == [] then [] else [LowerChar(s[0])] + Lower(s[1..])
  }

  function StripFront(s: string): string {
    if s != [] && IsSpace(s[0]) then StripFront(s[1..]) else s
  }

  function StripBack(s: string): string {
    if s != [] && IsSpace(s[|s| - 1]) then StripBack(s[..|s| - 1]) else s
  }

  // Length of the leading run without whitespace.
  function WordLength(s: string): (n: nat)
    ensures n <= |s|
    ensures forall i :: 0 <= i < n ==> !IsSpace(s[i])
    ensures n < |s| ==> IsSpace(s[n])
  {
    if s == [] || IsSpace(s[0]) then 0 else 1 + WordLength(s[1..])
  }

  function Words(s: string): seq<string>
    decreases |s|
  {
    if s == [] then []
    else if IsSpace(s[0]) then Words(s[1..])
    else [s[..WordLength(s)]] + Words(s[WordLength(s)..])
  }

  function Join(words: seq<string>, separator: string): string {
    if words == [] then []
    else if |words| == 1 then words[0]
    else words[0] + separator + Join(words[1..], separator)
  }

  function Normalize(s: string): string {
    Join(Words(Lower(StripBack(StripFront(s)))), " ")
  }

  // ---------- Normalizing twice ----------

  ghost predicate PlainWord(w: string) {
    w != [] && forall i :: 0 <= i < |w| ==> !IsSpace(w[i]) && LowerChar(w[i]) == w[i]
  }

  ghost predicate PlainWords(words: seq<string>) {
    forall i :: 0 <= i < |words| ==> PlainWord(words[i])
  }

  lemma {:induction false} WordsArePlain(s: string)
    requires forall i :: 0 <= i < |s| ==> LowerChar(s[i]) == s[i]
    ensures PlainWords(Words(s))
    decreases |s|
  {
    if s != [] {
      if IsSpace(s[0]) {
        WordsArePlain(s[1..]);
      } else {
        WordsArePlain(s[WordLength(s)..]);
      }
    }
  }

  lemma WordLengthOfWord(w: string, rest: string)
    requires PlainWord(w) && (rest == [] || IsSpace(rest[0]))
    ensures WordLength(w + rest) == |w|
  {
    assert forall i :: 0 <= i < |w| ==> (w + rest)[i] == w[i];
    assert rest != [] ==> (w + rest)[|w|] == rest[0];
  }

  lemma WordsOfWord(w: string, rest: string)
    requires PlainWord(w) && (rest == [] || IsSpace(rest[0]))
    ensures Words(w + rest) == [w] + (if rest == [] then [] else Words(rest[1..]))
  {
    WordLengthOfWord(w, rest);
    assert (w + rest)[..|w|] == w && (w + rest)[|w|..] == rest;
    assert (w + rest)[0] == w[0];
  }

  lemma JoinFirst(words: seq<string>)
    requires words != []
    ensures Join(words, " ") == words[0] + (if |words| == 1 then [] else " " + Join(words[1..], " "))
  {
  }

  lemma {:induction false} WordsOfJoin(words: seq<string>)
    requires PlainWords(words)
    ensures Words(Join(words, " ")) == words
    decreases |words|
  {
    if words == [] {
      assert Words("") == [];
    } else {
      JoinFirst(words);
      hide Words, Join;
      var tail := Join(words[1..], " ");
      var rest := if |words| == 1 then [] else " " + tail;
      WordsOfWord(words[0], rest);
      WordsOfJoin(words[1..]);
      assert |words| > 1 ==> rest[1..] == tail;
      assert words == [words[0]] + words[1..];
    }
  }

  lemma {:induction false} JoinShape(words: seq<string>)
    requires PlainWords(words)
    ensures
      var s := Join(words, " ");
      && (forall i :: 0 <= i < |s| ==> LowerChar(s[i]) == s[i])
      && (s != [] ==> !IsSpace(s[0]) && !IsSpace(s[|s| - 1]))
      && (s == [] <==> words == [])
    decreases |words|
  {
    if |words| > 1 {
      JoinShape(words[1..]);
      assert Join(words, " ") == words[0] + " " + Join(words[1..], " ");
    }
  }

  lemma LowerIdentity(s: string)
    requires forall i :: 0 <= i < |s| ==> LowerChar(s[i]) == s[i]
    ensures Lower(s) == s
  {
  }

  /** Normalizing is idempotent. */
  lemma NormalizeIdempotent(s: string)
    ensures Normalize(Normalize(s)) == Normalize(s)
  {
    var lowered := Lower(StripBack(StripFront(s)));
    forall i | 0 <= i < |lowered|
      ensures LowerChar(lowered[i]) == lowered[i]
    {
    }
    WordsArePlain(lowered);
    var words := Words(lowered);
    JoinShape(words);
    var r := Join(words, " ");
    assert StripBack(StripFront(r)) == r;
    LowerIdentity(r);
    WordsOfJoin(words);
  }

  // ---------- Normalizing in one pass ----------

  /**
   The same text character by character: whitespace is dropped, one space is put before a word
   that follows another, and capital letters become small ones.
   */
  function OnePass(s: string, started: bool, gap: bool): string {
    if s == [] then []
    else
      var c := s[0];
      if c == ' ' || '\t' <= c <= '\r' || '\U{1c}' <= c <= '\U{1f}' then OnePass(s[1..], started, true)
      else
        (if started && gap then " " else "")
        + ([if 'A' <= c <= 'Z' then c - 'A' + 'a' else c] + OnePass(s[1..], true, false))
  }

  lemma OnePassChar(s: string, started: bool, gap: bool)
    requires s != []
    ensures IsSpace(s[0]) ==> OnePass(s, started, gap) == OnePass(s[1..], started, true)
    ensures !IsSpace(s[0]) ==>
              OnePass(s, started, gap)
              == (if started && gap then " " else "") + ([LowerChar(s[0])] + OnePass(s[1..], true, false))
  {
  }

  lemma {:induction false} OnePassLower(s: string, started: bool, gap: bool)
    ensures OnePass(Lower(s), started, gap) == OnePass(s, started, gap)
    decreases |s|
  {
    if s != [] {
      var low := Lower(s);
      assert low[0] == LowerChar(s[0]) && low[1..] == Lower(s[1..]);
      SpaceLower(s[0]);
      OnePassChar(low, started, gap);
      OnePassChar(s, started, gap);
      hide OnePass, Lower, IsSpace, LowerChar;
      if IsSpace(s[0]) {
        OnePassLower(s[1..], started, true);
      } else {
        OnePassLower(s[1..], true, false);
      }
    }
  }

  lemma SpaceLower(c: char)
    ensures IsSpace(LowerChar(c)) <==> IsSpace(c)
    ensures LowerChar(LowerChar(c)) == LowerChar(c)
  {
  }

  ghost predicate Lowered(s: string) {
    forall i :: 0 <= i < |s| ==> LowerChar(s[i]) == s[i]
  }

  // A word under way is copied up to its end.
  lemma {:induction false} OnePassWord(s: string, n: nat)
    requires Lowered(s) && n == WordLength(s)
    ensures OnePass(s, true, false) == s[..n] + OnePass(s[n..], true, true)
    decreases |s|
  {
    if s == [] {
      assert s[0..] == s;
    } else {
      OnePassChar(s, true, false);
      OnePassChar(s, true, true);
      if n == 0 {
        assert s[0..] == s;
      } else {
        OnePassWord(s[1..], n - 1);
        hide OnePass, IsSpace, LowerChar, WordLength;
        assert s[1..][n - 1..] == s[n..];
        assert s[..n] == [s[0]] + s[1..][..n - 1];
      }
    }
  }

  // Words joined by single spaces, after a space if something came before.
  function Continued(started: bool, words: seq<string>): string {
    if words == [] then [] else (if started then " " else "") + Join(words, " ")
  }

  lemma ContinuedAfter(started: bool, word: string, words: seq<string>)
    ensures Continued(started, [word] + words) == (if started then " " else "") + (word + Continued(true, words))
  {
    assert ([word] + words)[1..] == words;
  }

  lemma {:induction false} OnePassWords(s: string, started: bool)
    requires Lowered(s)
    ensures OnePass(s, started, true) == Continued(started, Words(s))
    decreases |s|
  {
    if s == [] {
      assert Words(s) == [];
    } else if IsSpace(s[0]) {
      OnePassChar(s, started, true);
      OnePassWords(s[1..], started);
    } else {
      var n := WordLength(s);
      OnePassWord(s, n);
      OnePassChar(s, started, true);
      OnePassChar(s, true, false);
      OnePassWords(s[n..], true);
      ContinuedAfter(started, s[..n], Words(s[n..]));
      assert Words(s) == [s[..n]] + Words(s[n..]);
      hide OnePass, Words, Continued, IsSpace, LowerChar;
    }
  }

  lemma {:induction false} OnePassStripFront(s: string)
    ensures OnePass(StripFront(s), false, true) == OnePass(s, false, true)
  {
    if s != [] && IsSpace(s[0]) {
      OnePassStripFront(s[1..]);
    }
  }

  lemma {:induction false} OnePassTrailing(s: string, c: char, started: bool, gap: bool)
    requires IsSpace(c)
    ensures OnePass(s + [c], started, gap) == OnePass(s, started, gap)
    decreases |s|
  {
    if s == [] {
      assert s + [c] == [c] && [c][1..] == [];
    } else {
      assert (s + [c])[1..] == s[1..] + [c];
      OnePassTrailing(s[1..], c, if IsSpace(s[0]) then started else true, IsSpace(s[0]));
    }
  }

  lemma {:induction false} OnePassStripBack(s: string)
    ensures OnePass(StripBack(s), false, true) == OnePass(s, false, true)
    decreases |s|
  {
    if s != [] && IsSpace(s[|s| - 1]) {
      var front, c := s[..|s| - 1], s[|s| - 1];
      OnePassStripBack(front);
      OnePassTrailing(front, c, false, true);
      assert s == front + [c];
    }
  }

  /** Stripping, lowering, splitting and joining again is one pass over the characters. */
  lemma NormalizeOnePass(s: string)
    ensures Normalize(s) == OnePass(s, false, true)
  {
    var stripped := StripBack(StripFront(s));
    forall i | 0 <= i < |stripped|
      ensures LowerChar(Lower(stripped)[i]) == Lower(stripped)[i]
    {
      SpaceLower(stripped[i]);
    }
    OnePassWords(Lower(stripped), false);
    OnePassLower(stripped, false, true);
    OnePassStripBack(StripFront(s));
    OnePassStripFront(s);
    hide OnePass, Words, Lower, StripBack, StripFront;
  }

  // ---------- The joined key ----------

  // A part counts only if something is left of it.
  function PartOf(part: string): seq<string> {
    if Normalize(part) == [] then [] else [Normalize(part)]
  }

  function NormalizedParts(parts: seq<string>): seq<string> {
    if parts == [] then []
    else PartOf(parts[0]) + NormalizedParts(parts[1..])
  }

  function Key(parts: seq<string>): string {
    Join(NormalizedParts(parts), SEPARATOR)
  }

  lemma {:induction false} NormalizedPartsStep(parts: seq<string>, next: string)
    ensures NormalizedParts(parts + [next]) == NormalizedParts(parts) + PartOf(next)
  {
    hide PartOf;
    var longer := parts + [next];
    if parts == [] {
      assert longer[1..] == [];
    } else {
      assert longer[1..] == parts[1..] + [next];
      NormalizedPartsStep(parts[1..], next);
      assert NormalizedParts(longer) == PartOf(parts[0]) + (NormalizedParts(parts[1..]) + PartOf(next));
    }
  }

  lemma {:induction false} JoinLast(words: seq<string>, word: string)
    requires words != []
    ensures Join(words + [word], SEPARATOR) == Join(words, SEPARATOR) + SEPARATOR + word
  {
    assert (words + [word])[0] == words[0] && (words + [word])[1..] == words[1..] + [word];
    if |words| == 1 {
      assert words[1..] + [word] == [word];
    } else {
      JoinLast(words[1..], word);
    }
  }

  lemma {:induction false} PartsNotEmpty(parts: seq<string>)
    ensures forall i :: 0 <= i < |NormalizedParts(parts)| ==> NormalizedParts(parts)[i] != []
  {
    if parts != [] {
      PartsNotEmpty(parts[1..]);
    }
  }

  /** The key part by part: a part with nothing but whitespace adds nothing, any other follows two bars. */
  lemma KeyExact(parts: seq<string>, next: string)
    ensures Key([]) == ""
    ensures
      var text := OnePass(next, false, true);
      Key(parts + [next])
      == if text == "" then Key(parts) else if Key(parts) == "" then text else Key(parts) + "||" + text
  {
    NormalizeOnePass(next);
    NormalizedPartsStep(parts, next);
    PartsNotEmpty(parts);
    hide Normalize, OnePass;
    var words, text := NormalizedParts(parts), Normalize(next);
    if words == [] {
      assert words + [text] == [text];
    } else {
      JoinLast(words, text);
      assert Join(words, SEPARATOR) != [] by {
        assert words[0] != [];
      }
    }
    assert words + [] == words;
  }

  ghost predicate Separable(words: seq<string>) {
    forall i :: 0 <= i < |words| ==> words[i] != [] && '|' !in words[i]
  }

  lemma {:induction false} FirstPartUnique(x: string, s: string, y: string, t: string)
    requires x + s == y + t && '|' !in x && '|' !in y
    requires (s == [] || s[0] == '|') && (t == [] || t[0] == '|')
    ensures x == y && s == t
  {
    assert x != [] ==> (x + s)[0] == x[0];
    assert y != [] ==> (y + t)[0] == y[0];
    if x == [] || y == [] {
      assert [] + s == s && [] + t == t;
    } else {
      assert (x + s)[1..] == x[1..] + s && (y + t)[1..] == y[1..] + t;
      FirstPartUnique(x[1..], s, y[1..], t);
    }
  }

  lemma {:induction false} JoinInjective(a: seq<string>, b: seq<string>)
    requires Separable(a) && Separable(b) && Join(a, SEPARATOR) == Join(b, SEPARATOR)
    ensures a == b
    decreases |a|
  {
    if a != [] && b != [] {
      var s, t := JoinedTail(a), JoinedTail(b);
      FirstPartUnique(a[0], s, b[0], t);
      assert a == [a[0]] + a[1..] && b == [b[0]] + b[1..];
      if |a| > 1 && |b| > 1 {
        assert s[2..] == Join(a[1..], SEPARATOR) && t[2..] == Join(b[1..], SEPARATOR);
        JoinInjective(a[1..], b[1..]);
      }
    }
  }

  // What follows the first word in a joined text.
  function JoinedTail(words: seq<string>): (tail: string)
    requires words != []
    ensures Join(words, SEPARATOR) == words[0] + tail
    ensures tail == if |words| == 1 then [] else SEPARATOR + Join(words[1..], SEPARATOR)
  {
    if |words| == 1 then [] else SEPARATOR + Join(words[1..], SEPARATOR)
  }

  /** Two part lists free of the separator character share a key exactly when they normalize alike. */
  lemma KeyInjective(a: seq<string>, b: seq<string>)
    requires Separable(NormalizedParts(a)) && Separable(NormalizedParts(b))
    ensures Key(a) == Key(b) <==> NormalizedParts(a) == NormalizedParts(b)
  {
    if Key(a) == Key(b) {
      JoinInjective(NormalizedParts(a), NormalizedParts(b));
    }
  }
}

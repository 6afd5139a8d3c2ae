/** Splitting a text into search tokens: whitespace-separated words, lowercased, stripped of
    punctuation, with stopwords and empty words dropped. */
module Tokenizer {
  import opened CharClasses

  predicate IsStopword(w: string) {
    || w in {"a", "an", "the", "and", "or", "but",
             "if", "while", "with", "to", "of", "for", "in", "on", "at", "by",
             "from", "as", "is", "are", "was", "were", "be", "been", "being"}
    || w in {"it", "this", "that", "these", "those", "i", "you", "he", "she",
             "they", "we", "me", "him", "her", "them", "my", "your", "his",
             "their", "our", "so", "because", "what", "which", "who", "whom"}
  }

  // ---------- what tokenizing means ----------

  /** The number of leading characters that are not whitespace. */
  function WordLength(s: string): (n: nat)
    ensures n <= |s|
    ensures forall i :: 0 <= i < n ==> !IsSpace(s[i])
    ensures n < |s| ==> IsSpace(s[n])
  {
    if s == [] || IsSpace(s[0]) then 0 else 1 + WordLength(s[1..])
  }

  /** The maximal runs of characters that are not whitespace. */
  function Words(s: string): seq<string> {
    if s == [] then []
    else if IsSpace(s[0]) then Words(s[1..])
    else
      var n := WordLength(s);
      [s[..n]] + Words(s[n..])
  }

  function Lower(s: string): (r: string)
    ensures |r| == |s| && forall i :: 0 <= i < |s| ==> r[i] == ToLower(s[i])
  {
    if s == [] then [] else [ToLower(s[0])] + Lower(s[1..])
  }

  function StripPunct(s: string): string {
    if s == [] then []
    else if IsPunct(s[0]) then StripPunct(s[1..])
    else [s[0]] + StripPunct(s[1..])
  }

  function Clean(w: string): string {
    StripPunct(Lower(w))
  }

  predicate Kept(w: string) {
    w != [] && !IsStopword(w)
  }

  /** The cleaned words that are neither empty nor stopwords, in order. */
  function Selected(ws: seq<string>): seq<string> {
    if ws == [] then []
    else (if Kept(Clean(ws[0])) then [Clean(ws[0])] else []) + Selected(ws[1..])
  }

  function Tokenize(s: string): seq<string> {
    Selected(Words(s))
  }

  lemma SelectedEmpty()
    ensures Selected([]) == []
  {
  }

  lemma SelectedCons(w: string, ws: seq<string>)
    ensures Selected([w] + ws) == (if Kept(Clean(w)) then [Clean(w)] else []) + Selected(ws)
  {
    assert ([w] + ws)[1..] == ws;
  }

  // ---------- the implementation ----------

  /** transform(..., ::tolower) over the word in place. */
  method LowerInPlace(word: array<char>)
    modifies word
    ensures word[..] == Lower(old(word[..]))
  {
    var i := 0;
    while i < word.Length
      invariant 0 <= i <= word.Length
      invariant forall k :: 0 <= k < i ==> word[k] == ToLower(old(word[k]))
      invariant forall k :: i <= k < word.Length ==> word[k] == old(word[k])
    {
      word[i] := ToLower(word[i]);
      i := i + 1;
    }
  }

  lemma {:induction false} StripPunctSnoc(s: string, c: char)
    ensures StripPunct(s + [c]) == StripPunct(s) + if IsPunct(c) then [] else [c]
  {
    if s == [] {
      assert [c][1..] == [];
    } else {
      StripPunctSnoc(s[1..], c);
      assert (s + [c])[1..] == s[1..] + [c];
    }
  }

  /** remove_if(..., ::ispunct): compacts the kept characters to the front; n is the new end. */
  method RemovePunctInPlace(word: array<char>) returns (n: nat)
    modifies word
    ensures n <= word.Length && word[..n] == StripPunct(old(word[..]))
  {
    n := 0;
    var i := 0;
    ghost var was := word[..];
    while i < word.Length
      invariant 0 <= n <= i <= word.Length
      invariant word[..n] == StripPunct(was[..i])
      invariant word[i..] == was[i..]
    {
      assert was[..i + 1] == was[..i] + [was[i]];
      StripPunctSnoc(was[..i], was[i]);
      assert word[i] == word[i..][0];
      if !IsPunct(word[i]) {
        ghost var front := word[..n];
        word[n] := word[i];
        n := n + 1;
        assert word[..n] == front + [was[i]];
      }
      i := i + 1;
      assert word[i..] == was[i - 1..][1..];
    }
    assert was[..i] == was;
  }

  /** The end of the word that starts at first: extraction reads up to the next whitespace. */
  method ReadWord(text: string, first: nat) returns (end: nat)
    requires first <= |text|
    ensures end == first + WordLength(text[first..]) <= |text|
  {
    end := first;
    while end < |text| && !IsSpace(text[end])
      invariant first <= end <= |text|
      invariant WordLength(text[first..]) == end - first + WordLength(text[end..])
    {
      assert text[end..][1..] == text[end + 1..];
      end := end + 1;
    }
  }

  /** Extraction of one word from the stream: skips whitespace, then reads up to the next. */
  method NextWord(text: string, start: nat) returns (first: nat, end: nat)
    requires start <= |text|
    ensures start <= first <= end <= |text|
    ensures first == end ==> Words(text[start..]) == []
    ensures first < end ==> Words(text[start..]) == [text[first..end]] + Words(text[end..])
  {
    first := start;
    while first < |text| && IsSpace(text[first])
      invariant start <= first <= |text|
      invariant Words(text[start..]) == Words(text[first..])
    {
      assert text[first..][1..] == text[first + 1..];
      first := first + 1;
    }
    end := ReadWord(text, first);
    if first < end {
      assert text[first..][..end - first] == text[first..end];
      assert text[first..][end - first..] == text[end..];
    }
  }

  /** The two in-place passes over one extracted word, and the erase of its tail. */
  method CleanWord(raw: string) returns (w: string)
    ensures w == Clean(raw)
  {
    var word := new char[|raw|](i requires 0 <= i < |raw| => raw[i]);
    assert word[..] == raw;
    LowerInPlace(word);
    var n := RemovePunctInPlace(word);
    w := word[..n];
  }

  method TokenizeText(text: string) returns (tokens: seq<string>)
    ensures tokens == Tokenize(text)
    ensures forall i :: 0 <= i < |tokens| ==> tokens[i] != "" && !IsStopword(tokens[i])
  {
    hide Words, Selected, Clean, IsSpace, IsStopword;
    tokens := [];
    var first, end := NextWord(text, 0);
    assert text[0..] == text;
    SelectedEmpty();
    while first < end
      invariant 0 <= first <= end <= |text|
      invariant first < end ==> tokens + Selected([text[first..end]] + Words(text[end..])) == Tokenize(text)
      invariant first == end ==> tokens == Tokenize(text)
      invariant forall i :: 0 <= i < |tokens| ==> tokens[i] != "" && !IsStopword(tokens[i])
      decreases |text| - end, end - first
    {
      ghost var before, rest := tokens, Words(text[end..]);
      var word := CleanWord(text[first..end]);
      if Kept(word) {
        tokens := tokens + [word];
      }
      SelectedCons(text[first..end], rest);
      assert tokens + Selected(rest) == before + Selected([text[first..end]] + rest);
      first, end := NextWord(text, end);
    }
  }
}

/** Laws of the tokenizer over all texts. */
module TokenizerLaws {
  import opened CharClasses
  import opened Tokenizer

  /** The form of a token: neither empty nor a stopword, lowercase, and free of whitespace and
      punctuation. */
  ghost predicate IsToken(t: string) {
    && t != "" && !IsStopword(t)
    && forall i :: 0 <= i < |t| ==> !IsSpace(t[i]) && !IsPunct(t[i]) && ToLower(t[i]) == t[i]
  }

  ghost predicate AllTokens(ts: seq<string>) {
    forall i :: 0 <= i < |ts| ==> IsToken(ts[i])
  }

  // ---------- the stopwords ----------

  /** The stopwords in alphabetical order, by their first letter. */
  function StopwordsFrom(c: char): set<string> {
    match c
    case 'a' => {"a", "an", "and", "are", "as", "at"}
    case 'b' => {"be", "because", "been", "being", "but", "by"}
    case 'f' => {"for", "from"}
    case 'h' => {"he", "her", "him", "his"}
    case 'i' => {"i", "if", "in", "is", "it"}
    case 'm' => {"me", "my"}
    case 'o' => {"of", "on", "or", "our"}
    case 's' => {"she", "so"}
    case 't' => {"that", "the", "their", "them", "these", "they", "this", "those", "to"}
    case 'w' => {"was", "we", "were", "what", "which", "while", "who", "whom", "with"}
    case 'y' => {"you", "your"}
    case _ => {}
  }

  /** These are all the stopwords there are. */
  lemma StopwordsListed(w: string)
    ensures IsStopword(w) <==> w != "" && w in StopwordsFrom(w[0])
  {
  }

  // ---------- the shape of tokens ----------

  lemma {:induction false} StripPunctChars(s: string)
    ensures forall c :: c in StripPunct(s) <==> c in s && !IsPunct(c)
  {
    if s != [] {
      StripPunctChars(s[1..]);
    }
  }

  lemma {:induction false} StripPunctClean(s: string)
    requires forall i :: 0 <= i < |s| ==> !IsPunct(s[i])
    ensures StripPunct(s) == s
  {
    if s != [] {
      StripPunctClean(s[1..]);
    }
  }

  lemma {:induction false} WordsHaveNoSpace(s: string)
    ensures forall w :: w in Words(s) ==> w != [] && forall i :: 0 <= i < |w| ==> !IsSpace(w[i])
    decreases |s|
  {
    if s != [] {
      if IsSpace(s[0]) {
        WordsHaveNoSpace(s[1..]);
      } else {
        WordsHaveNoSpace(s[WordLength(s)..]);
      }
    }
  }

  lemma CleanShape(w: string)
    requires forall i :: 0 <= i < |w| ==> !IsSpace(w[i])
    requires Kept(Clean(w))
    ensures IsToken(Clean(w))
  {
    StripPunctChars(Lower(w));
    forall i | 0 <= i < |Clean(w)|
      ensures !IsSpace(Clean(w)[i]) && !IsPunct(Clean(w)[i]) && ToLower(Clean(w)[i]) == Clean(w)[i]
    {
      assert Clean(w)[i] in Lower(w);
      var j :| 0 <= j < |w| && Clean(w)[i] == ToLower(w[j]);
    }
  }

  lemma {:induction false} SelectedShape(ws: seq<string>)
    requires forall w :: w in ws ==> forall i :: 0 <= i < |w| ==> !IsSpace(w[i])
    ensures AllTokens(Selected(ws))
  {
    hide Clean, IsStopword;
    if ws != [] {
      SelectedShape(ws[1..]);
      if Kept(Clean(ws[0])) {
        CleanShape(ws[0]);
      }
    }
  }

  /** Every token is nonempty, not a stopword, lowercase, and has no whitespace or punctuation;
      in particular it has no quote, so quoting it in the IN list of the posting query is sound. */
  lemma TokenShape(s: string)
    ensures AllTokens(Tokenize(s))
  {
    WordsHaveNoSpace(s);
    SelectedShape(Words(s));
  }

  lemma {:induction false} SelectedMembers(ws: seq<string>, t: string)
    ensures t in Selected(ws) <==> exists w :: w in ws && Clean(w) == t && t != "" && !IsStopword(t)
  {
    hide Clean, IsStopword;
    if ws != [] {
      SelectedMembers(ws[1..], t);
      assert ws == [ws[0]] + ws[1..];
      if w :| w in ws && Clean(w) == t && t != "" && !IsStopword(t) {
        assert w == ws[0] || w in ws[1..];
      }
    }
  }

  /** The tokens of a text are its cleaned words, except the empty ones and the stopwords. */
  lemma TokenMembers(s: string, t: string)
    ensures t in Tokenize(s) <==> exists w :: w in Words(s) && Clean(w) == t && t != "" && !IsStopword(t)
  {
    SelectedMembers(Words(s), t);
  }

  // ---------- one word, one character ----------

  /** Cleaning works character by character: it drops punctuation and lowers everything else. */
  lemma CleanConcat(u: string, c: char)
    ensures Clean("") == "" && Clean(u + [c]) == Clean(u) + if IsPunct(c) then "" else [ToLower(c)]
  {
    assert Lower(u + [c]) == Lower(u) + [ToLower(c)];
    StripPunctSnoc(Lower(u), ToLower(c));
  }

  /** A text without whitespace is one word: at most one token. With TokenizeConcat this determines the
      tokens of every text. */
  lemma TokenizeWord(w: string)
    requires forall i :: 0 <= i < |w| ==> !IsSpace(w[i])
    ensures Tokenize(w) == if Clean(w) == "" || IsStopword(Clean(w)) then [] else [Clean(w)]
  {
    hide Clean, IsStopword;
    if w != "" {
      WordLengthAll(w);
      assert w[..|w|] == w && w[|w|..] == [];
      assert Words(w) == [w] + Words([]) == [w];
      SelectedCons(w, []);
      assert [w] + [] == [w];
    } else {
      EmptyClean();
    }
  }

  lemma EmptyClean()
    ensures Clean("") == ""
  {
  }

  // ---------- concatenation ----------

  lemma {:induction false} WordLengthUntilSpace(a: string, c: char, b: string)
    requires IsSpace(c)
    ensures WordLength(a + [c] + b) == WordLength(a)
  {
    if a != [] {
      WordLengthUntilSpace(a[1..], c, b);
      assert (a + [c] + b)[1..] == a[1..] + [c] + b;
    }
  }

  lemma {:induction false} WordsConcat(a: string, c: char, b: string)
    requires IsSpace(c)
    ensures Words(a + [c] + b) == Words(a) + Words(b)
    decreases |a|
  {
    var s := a + [c] + b;
    if a == [] {
      assert s[1..] == b;
    } else if IsSpace(a[0]) {
      WordsConcat(a[1..], c, b);
      assert s[1..] == a[1..] + [c] + b;
    } else {
      var n := WordLength(a);
      WordLengthUntilSpace(a, c, b);
      WordsConcat(a[n..], c, b);
      SliceConcat(a, c, b, n);
      WordsFirst(a);
      WordsFirst(s);
      hide WordLength, Words;
      assert [a[..n]] + (Words(a[n..]) + Words(b)) == [a[..n]] + Words(a[n..]) + Words(b);
    }
  }

  lemma SliceConcat(a: string, c: char, b: string, n: nat)
    requires n <= |a|
    ensures (a + [c] + b)[n..] == a[n..] + [c] + b && (a + [c] + b)[..n] == a[..n]
  {
  }

  lemma WordsFirst(s: string)
    requires s != [] && !IsSpace(s[0])
    ensures 0 < WordLength(s) <= |s| && Words(s) == [s[..WordLength(s)]] + Words(s[WordLength(s)..])
  {
  }

  lemma {:induction false} SelectedConcat(u: seq<string>, v: seq<string>)
    ensures Selected(u + v) == Selected(u) + Selected(v)
  {
    hide Kept, Clean;
    if u == [] {
      assert u + v == v;
    } else {
      SelectedConcat(u[1..], v);
      var head := if Kept(Clean(u[0])) then [Clean(u[0])] else [];
      assert head + (Selected(u[1..]) + Selected(v)) == head + Selected(u[1..]) + Selected(v);
      assert (u + v)[1..] == u[1..] + v;
    }
  }

  /** Tokenizing is a homomorphism from texts joined by a whitespace character to token lists. */
  lemma TokenizeConcat(a: string, c: char, b: string)
    requires IsSpace(c)
    ensures Tokenize(a + [c] + b) == Tokenize(a) + Tokenize(b)
  {
    WordsConcat(a, c, b);
    SelectedConcat(Words(a), Words(b));
  }

  // ---------- round trip ----------

  function Join(ts: seq<string>): string {
    if ts == [] then "" else if |ts| == 1 then ts[0] else ts[0] + [' '] + Join(ts[1..])
  }

  lemma {:induction false} WordLengthAll(w: string)
    requires forall i :: 0 <= i < |w| ==> !IsSpace(w[i])
    ensures WordLength(w) == |w|
  {
    if w != [] {
      WordLengthAll(w[1..]);
    }
  }

  lemma TokenizeToken(t: string)
    requires IsToken(t)
    ensures Tokenize(t) == [t]
  {
    WordLengthAll(t);
    assert t[..|t|] == t && t[|t|..] == [];
    assert Words(t) == [t] + Words([]) == [t];
    assert Lower(t) == t;
    StripPunctClean(t);
    SelectedCons(t, []);
    assert [t] + [] == [t];
  }

  lemma {:induction false} TokenizeJoin(ts: seq<string>)
    requires AllTokens(ts)
    ensures Tokenize(Join(ts)) == ts
  {
    if |ts| == 1 {
      TokenizeToken(ts[0]);
    } else if |ts| > 1 {
      TokenizeToken(ts[0]);
      TokenizeJoin(ts[1..]);
      TokenizeConcat(ts[0], ' ', Join(ts[1..]));
    }
  }

  /** Joining a list of words with spaces and tokenizing gives the list back exactly when every
      word already has the form of a token. */
  lemma JoinRoundTrip(ts: seq<string>)
    ensures Tokenize(Join(ts)) == ts <==> AllTokens(ts)
  {
    if AllTokens(ts) {
      TokenizeJoin(ts);
    }
    TokenShape(Join(ts));
  }

  /** Re-tokenizing the joined tokens of any text returns the same tokens. */
  lemma TokenizeIdempotent(s: string)
    ensures Tokenize(Join(Tokenize(s))) == Tokenize(s)
  {
    TokenShape(s);
    TokenizeJoin(Tokenize(s));
  }

  // ---------- letter case ----------

  function LowerAll(ws: seq<string>): seq<string> {
    if ws == [] then [] else [Lower(ws[0])] + LowerAll(ws[1..])
  }

  lemma {:induction false} WordLengthLower(s: string)
    ensures WordLength(Lower(s)) == WordLength(s)
  {
    if s != [] {
      WordLengthLower(s[1..]);
      assert Lower(s)[1..] == Lower(s[1..]);
    }
  }

  lemma {:induction false} WordsLower(s: string)
    ensures Words(Lower(s)) == LowerAll(Words(s))
    decreases |s|
  {
    if s != [] {
      assert IsSpace(ToLower(s[0])) == IsSpace(s[0]);
      if IsSpace(s[0]) {
        WordsLower(s[1..]);
        assert Lower(s)[1..] == Lower(s[1..]);
      } else {
        var n := WordLength(s);
        WordLengthLower(s);
        WordsLower(s[n..]);
        assert Lower(s)[..n] == Lower(s[..n]) && Lower(s)[n..] == Lower(s[n..]);
        var ws := Words(s);
        assert ws == [s[..n]] + Words(s[n..]) && ws[1..] == Words(s[n..]);
      }
    }
  }

  lemma {:induction false} SelectedLower(ws: seq<string>)
    ensures Selected(LowerAll(ws)) == Selected(ws)
  {
    if ws != [] {
      SelectedLower(ws[1..]);
      assert Lower(Lower(ws[0])) == Lower(ws[0]);
      SelectedCons(Lower(ws[0]), LowerAll(ws[1..]));
    }
  }

  /** Two texts that differ only in the case of ASCII letters have the same tokens. */
  lemma TokenizeIgnoresCase(a: string, b: string)
    requires |a| == |b| && forall i :: 0 <= i < |a| ==> ToLower(a[i]) == ToLower(b[i])
    ensures Tokenize(a) == Tokenize(b)
  {
    assert Lower(a) == Lower(b);
    WordsLower(a);
    WordsLower(b);
    SelectedLower(Words(a));
    SelectedLower(Words(b));
  }
}

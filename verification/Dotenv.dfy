/** Variable expansion in values of the .env file: `$NAME` up to the next space, or `${NAME}`. */
module Dotenv {
  import opened CharClasses

  type Environment = map<string, string>

  /** std::string::npos. No string is that long. */
  const NPOS: nat := 0xFFFF_FFFF_FFFF_FFFF

  // ---------- searching ----------

  function Index(s: string, c: char): (n: nat)
    ensures n <= |s|
    ensures forall i :: 0 <= i < n ==> s[i] != c
    ensures n < |s| ==> s[n] == c
  {
    if s == [] || s[0] == c then 0 else 1 + Index(s[1..], c)
  }

  /** str.find(c, pos) */
  method FindChar(str: string, c: char, pos: nat) returns (r: nat)
    requires |str| < NPOS
    ensures pos > |str| ==> r == NPOS
    ensures pos <= |str| ==> r == if pos + Index(str[pos..], c) < |str| then pos + Index(str[pos..], c) else NPOS
  {
    r := pos;
    while r < |str| && str[r] != c
      invariant pos <= |str| ==> pos <= r <= |str| && pos + Index(str[pos..], c) == r + Index(str[r..], c)
      invariant pos > |str| ==> r == pos
    {
      assert str[r..][1..] == str[r + 1..];
      r := r + 1;
    }
    if r >= |str| {
      r := NPOS;
    }
  }

  predicate BracedAt(s: string, i: nat) {
    i + 1 < |s| && s[i] == '$' && s[i + 1] == '{'
  }

  /** str.find("${", pos) */
  method FindBraced(str: string, pos: nat) returns (r: nat)
    requires |str| < NPOS
    ensures r == NPOS || (pos <= r && BracedAt(str, r))
    ensures forall i :: pos <= i < r ==> !BracedAt(str, i)
  {
    r := pos;
    while r + 1 < |str| && !BracedAt(str, r)
      invariant pos <= r
      invariant forall i :: pos <= i < r ==> !BracedAt(str, i)
    {
      r := r + 1;
    }
    if r + 1 >= |str| {
      r := NPOS;
    }
  }

  /** rtrim: drops trailing whitespace. */
  function RTrim(s: string): (t: string)
    ensures t <= s
    ensures t != [] ==> !IsSpace(t[|t| - 1])
    ensures forall i :: |t| <= i < |s| ==> IsSpace(s[i])
  {
    if s == [] || !IsSpace(s[|s| - 1]) then s else RTrim(s[..|s| - 1])
  }

  function Min(a: nat, b: nat): nat {
    if a < b then a else b
  }

  /** Next variable expression from pos, with its start tag. */
  method FindVarStart(str: string, pos: nat) returns (r: nat, startTag: string)
    requires |str| < NPOS
    ensures pos > |str| ==> r == NPOS
    ensures pos <= |str| ==> r == if pos + Index(str[pos..], '$') < |str| then pos + Index(str[pos..], '$') else NPOS
    ensures r != NPOS ==> startTag == if BracedAt(str, r) then "${" else "$"
  {
    var p1 := FindChar(str, '$', pos);
    var p2 := FindBraced(str, pos);
    startTag := "";
    // a brace form starts with a dollar, so find('$') never comes later
    assert p2 != NPOS ==> str[pos..][p2 - pos] == '$';
    r := Min(p1, p2);
    assert r != NPOS ==> str[pos..][r - pos] == '$';
    if r != NPOS {
      startTag := if r == p2 then "${" else "$";
    }
  }

  method FindVarEnd(str: string, pos: nat, startTag: string) returns (r: nat)
    requires |str| < NPOS && pos <= |str|
    ensures var endTag := if startTag == "${" then '}' else ' ';
            var end := pos + Index(str[pos..], endTag);
            r == if end < |str| then end else if endTag == ' ' then |str| else NPOS
  {
    var endTag := if startTag == "${" then '}' else ' ';
    r := FindChar(str, endTag, pos);
    if r == NPOS && endTag == ' ' {
      r := |str|;
    }
  }

  // ---------- meaning: parse once, then substitute ----------

  /** A value is plain text, references with the text they were written as, and possibly one
      unclosed `${` at the end together with the text before it. */
  datatype Piece =
    | Text(raw: string)
    | Ref(raw: string, name: string)
    | Unclosed(before: string, raw: string)

  /** The end of the expression that starts at the dollar at i: its closing brace, or the next
      space; the end of the text when there is none. */
  function EndOf(s: string, i: nat): (end: nat)
    requires i < |s| && s[i] == '$'
    ensures i < end <= |s|
    ensures BracedAt(s, i) ==> i + 2 <= end && (end < |s| ==> s[end] == '}')
    ensures !BracedAt(s, i) && end < |s| ==> s[end] == ' '
  {
    var t := s[i..];
    assert t[0] == '$' && (BracedAt(s, i) ==> t[1] == '{');
    i + Index(t, if BracedAt(s, i) then '}' else ' ')
  }

  predicate ClosedAt(s: string, i: nat)
    requires i < |s| && s[i] == '$'
  {
    BracedAt(s, i) ==> EndOf(s, i) < |s|
  }

  function RefAt(s: string, i: nat): Piece
    requires i < |s| && s[i] == '$' && ClosedAt(s, i)
  {
    var end := EndOf(s, i);
    if BracedAt(s, i) then Ref(s[i..end + 1], RTrim(s[i + 2..end])) else Ref(s[i..end], RTrim(s[i + 1..end]))
  }

  /** Where scanning goes on after a closed expression. */
  function After(s: string, i: nat): (next: nat)
    requires i < |s| && s[i] == '$' && ClosedAt(s, i)
    ensures i < next <= |s|
  {
    if BracedAt(s, i) then EndOf(s, i) + 1 else EndOf(s, i)
  }

  /** Splits a value into pieces. It does not see the environment, so nothing that is substituted
      is ever scanned again. */
  function Parse(s: string): seq<Piece>
    decreases |s|
  {
    var i := Index(s, '$');
    if i == |s| then [Text(s)]
    else if ClosedAt(s, i) then [Text(s[..i]), RefAt(s, i)] + Parse(s[After(s, i)..])
    else [Unclosed(s[..i], s[i..])]
  }

  predicate Resolves(p: Piece, env: Environment) {
    match p
    case Text(_) => true
    case Ref(_, name) => name in env
    case Unclosed(_, _) => false
  }

  /** The text before an unclosed `${` comes out twice: it was copied when the `${` was found, and
      again with the tail, because pre_pos has not moved. */
  function Contribution(p: Piece, env: Environment): string {
    match p
    case Text(raw) => raw
    case Ref(_, name) => if name in env then env[name] else ""
    case Unclosed(before, raw) => before + before + raw
  }

  function Expand(ps: seq<Piece>, env: Environment): string {
    if ps == [] then "" else Contribution(ps[0], env) + Expand(ps[1..], env)
  }

  function Unresolved(ps: seq<Piece>, env: Environment): nat {
    if ps == [] then 0 else (if Resolves(ps[0], env) then 0 else 1) + Unresolved(ps[1..], env)
  }

  lemma ExpandTwo(p: Piece, q: Piece, ps: seq<Piece>, env: Environment)
    ensures Expand([p, q] + ps, env) == Contribution(p, env) + Contribution(q, env) + Expand(ps, env)
    ensures Unresolved([p, q] + ps, env) ==
            (if Resolves(p, env) then 0 else 1) + (if Resolves(q, env) then 0 else 1) + Unresolved(ps, env)
  {
    var all := [p, q] + ps;
    assert all[1..] == [q] + ps && all[1..][1..] == ps;
  }

  lemma ExpandOne(p: Piece, env: Environment)
    ensures Expand([p], env) == Contribution(p, env)
    ensures Unresolved([p], env) == if Resolves(p, env) then 0 else 1
  {
  }

  // ---------- the loop ----------

  lemma RTrimSpace(s: string)
    ensures RTrim(s + [' ']) == RTrim(s)
  {
    assert (s + [' '])[..|s|] == s;
  }

  /** The name between the tags. For the plain form the substring still holds the closing space. */
  method VarName(str: string, start: nat, end: nat, startTag: string) returns (name: string)
    requires start < |str| && str[start] == '$' && ClosedAt(str, start)
    requires startTag == (if BracedAt(str, start) then "${" else "$") && end == EndOf(str, start)
    ensures RefAt(str, start).name == name
  {
    var lstart := |startTag|;
    var lend := if lstart > 1 then 1 else 0;
    var v := str[start..if end + 1 <= |str| then end + 1 else |str|];
    var envVar := v[lstart..|v| - lend];
    assert forall k :: 0 <= k < |envVar| ==> envVar[k] == v[lstart + k] == str[start + lstart + k];
    if startTag == "$" && end < |str| {
      assert envVar == str[start + 1..end] + [' '];
      RTrimSpace(str[start + 1..end]);
    } else {
      assert envVar == str[start + lstart..end];
    }
    name := RTrim(envVar);
  }

  /** Loop invariant: what is written so far, followed by the expansion of the rest, is the whole. */
  ghost predicate Scanned(str: string, env: Environment, resolved: string, nvar: nat, prePos: nat) {
    && prePos <= |str|
    && resolved + Expand(Parse(str[prePos..]), env) == Expand(Parse(str), env)
    && nvar + Unresolved(Parse(str[prePos..]), env) == Unresolved(Parse(str), env)
  }

  /** After the last expression: only the tail is left to copy. */
  ghost predicate AtTail(str: string, env: Environment, resolved: string, nvar: nat, prePos: nat) {
    && prePos <= |str|
    && resolved + str[prePos..] == Expand(Parse(str), env)
    && nvar == Unresolved(Parse(str), env)
  }

  /** The next dollar at or after pre is at start. */
  ghost predicate NextDollar(str: string, pre: nat, start: nat) {
    pre <= start < |str| && str[start] == '$' && start == pre + Index(str[pre..], '$')
  }

  lemma NoMoreStep(str: string, env: Environment, resolved: string, nvar: nat, pre: nat)
    requires Scanned(str, env, resolved, nvar, pre) && Index(str[pre..], '$') == |str| - pre
    ensures AtTail(str, env, resolved, nvar, pre)
  {
    ExpandOne(Text(str[pre..]), env);
  }

  /** Positions in the suffix str[pre..] and in str. */
  lemma Shift(str: string, pre: nat, start: nat)
    requires pre <= start < |str| && str[start] == '$'
    ensures var s := str[pre..];
            && BracedAt(s, start - pre) == BracedAt(str, start)
            && pre + EndOf(s, start - pre) == EndOf(str, start)
            && s[..start - pre] == str[pre..start] && s[start - pre..] == str[start..]
  {
    hide Index;
    assert str[pre..][start - pre..] == str[start..];
  }

  lemma ShiftBraced(str: string, pre: nat, start: nat, end: nat)
    requires pre <= start && start + 2 <= end < |str|
    ensures var s, i := str[pre..], start - pre;
            && s[i..end - pre + 1] == str[start..end + 1] && s[i + 2..end - pre] == str[start + 2..end]
            && s[end - pre + 1..] == str[end + 1..]
  {
  }

  lemma ShiftPlain(str: string, pre: nat, start: nat, end: nat)
    requires pre <= start && start + 1 <= end <= |str|
    ensures var s, i := str[pre..], start - pre;
            && s[i..end - pre] == str[start..end] && s[i + 1..end - pre] == str[start + 1..end]
            && s[end - pre..] == str[end..]
  {
  }

  lemma ShiftRef(str: string, pre: nat, start: nat)
    requires pre <= start < |str| && str[start] == '$' && ClosedAt(str, start)
    ensures var s := str[pre..];
            && ClosedAt(s, start - pre) && RefAt(s, start - pre) == RefAt(str, start)
            && s[After(s, start - pre)..] == str[After(str, start)..]
  {
    hide Index, RTrim, EndOf, BracedAt;
    Shift(str, pre, start);
    if BracedAt(str, start) {
      ShiftBraced(str, pre, start, EndOf(str, start));
    } else {
      ShiftPlain(str, pre, start, EndOf(str, start));
    }
  }

  lemma UnclosedParse(str: string, pre: nat, start: nat)
    requires NextDollar(str, pre, start) && !ClosedAt(str, start)
    ensures Parse(str[pre..]) == [Unclosed(str[pre..start], str[start..])]
  {
    hide Index, EndOf;
    Shift(str, pre, start);
  }

  lemma UnclosedStep(str: string, env: Environment, resolved: string, nvar: nat, pre: nat, start: nat)
    requires Scanned(str, env, resolved, nvar, pre) && NextDollar(str, pre, start) && !ClosedAt(str, start)
    ensures AtTail(str, env, resolved + str[pre..start], nvar + 1, pre)
  {
    hide Index, EndOf, Parse, Expand, Unresolved;
    UnclosedParse(str, pre, start);
    var a, b := str[pre..start], str[start..];
    ExpandOne(Unclosed(a, b), env);
    assert str[pre..] == a + b;
    assert resolved + a + (a + b) == resolved + (a + a + b);
  }

  lemma ClosedStep(str: string, env: Environment, resolved: string, nvar: nat, pre: nat, start: nat)
    requires Scanned(str, env, resolved, nvar, pre) && NextDollar(str, pre, start) && ClosedAt(str, start)
    ensures var ref := RefAt(str, start);
            Scanned(str, env, resolved + str[pre..start] + Contribution(ref, env),
                    nvar + (if Resolves(ref, env) then 0 else 1), After(str, start))
  {
    hide Index, EndOf, RefAt, After, Expand, Unresolved, Contribution, Resolves;
    Shift(str, pre, start);
    ShiftRef(str, pre, start);
    var ref, rest := RefAt(str, start), Parse(str[After(str, start)..]);
    assert Parse(str[pre..]) == [Text(str[pre..start]), ref] + rest;
    ExpandTwo(Text(str[pre..start]), ref, rest, env);
    TextContributes(str[pre..start], env);
    assert resolved + (str[pre..start] + Contribution(ref, env) + Expand(rest, env))
        == resolved + str[pre..start] + Contribution(ref, env) + Expand(rest, env);
  }

  lemma TextContributes(raw: string, env: Environment)
    ensures Contribution(Text(raw), env) == raw && Resolves(Text(raw), env)
  {
  }

  /** One found expression: what the iteration appends, where the expression ends, and whether
      nvar goes back down because the variable is defined. */
  method ResolveOne(str: string, env: Environment, ghost resolved: string, ghost nvar: nat, prePos: nat, posStart: nat,
                    startTag: string)
    returns (pos: nat, piece: string, found: bool)
    requires |str| < NPOS && Scanned(str, env, resolved, nvar, prePos) && NextDollar(str, prePos, posStart)
    requires startTag == if BracedAt(str, posStart) then "${" else "$"
    ensures pos == NPOS ==> AtTail(str, env, resolved + piece, if found then nvar else nvar + 1, prePos)
    ensures pos != NPOS ==> ClosedAt(str, posStart) && pos == EndOf(str, posStart)
    ensures pos != NPOS ==> Scanned(str, env, resolved + piece, if found then nvar else nvar + 1, After(str, posStart))
  {
    hide Parse, Index, RTrim, Expand, Unresolved;
    piece := str[prePos..posStart];
    found := false;
    pos := FindVarEnd(str, posStart, startTag);
    if pos == NPOS {
      UnclosedStep(str, env, resolved, nvar, prePos, posStart);
      return;
    }
    ClosedStep(str, env, resolved, nvar, prePos, posStart);
    ghost var ref := RefAt(str, posStart);
    var envVar := VarName(str, posStart, pos, startTag);
    if envVar in env {
      piece := piece + env[envVar];
      found := true;
    }
    assert resolved + piece == resolved + str[prePos..posStart] + Contribution(ref, env);
  }

  method ResolveVars(str: string, env: Environment) returns (resolved: string, ok: bool)
    requires |str| < NPOS
    ensures resolved == Expand(Parse(str), env)
    ensures ok <==> AllResolve(Parse(str), env)
  {
    hide Index, RTrim, Parse, Expand, Unresolved;
    resolved := "";
    var pos: nat, prePos: nat, nvar: nat := 0, 0, 0;
    var finished := false;
    assert str[0..] == str;
    while !finished
      invariant pos != NPOS ==> pos == prePos || (pos + 1 == prePos && pos < |str| && str[pos] == '}')
      invariant finished ==> pos == NPOS
      invariant if pos == NPOS then AtTail(str, env, resolved, nvar, prePos)
                else Scanned(str, env, resolved, nvar, prePos)
      decreases if finished then 0 else if pos == NPOS then 1 else |str| - pos + 2
    {
      var startTag;
      ghost var from := pos;
      pos, startTag := FindVarStart(str, pos);
      if from != NPOS {
        FirstVariable(str, from, prePos);
      }
      if pos != NPOS {
        var posStart := pos;
        var piece, found;
        pos, piece, found := ResolveOne(str, env, resolved, nvar, prePos, posStart, startTag);
        resolved := resolved + piece;
        nvar := if found then nvar else nvar + 1;
        if pos != NPOS {
          prePos := pos + if |startTag| > 1 then 1 else 0;
        }
      } else {
        if from != NPOS {
          NoMoreStep(str, env, resolved, nvar, prePos);
        }
        finished := true;
      }
    }
    if prePos < |str| {
      resolved := resolved + str[prePos..];
    }
    ok := nvar == 0;
    UnresolvedCounts(Parse(str), env);
  }

  /** Searching from the closing brace finds the same dollar as searching after it. */
  lemma FirstVariable(str: string, from: nat, prePos: nat)
    requires from <= prePos <= |str| && (from == prePos || (from + 1 == prePos && str[from] == '}'))
    ensures from + Index(str[from..], '$') == prePos + Index(str[prePos..], '$')
  {
    if from < prePos {
      assert str[from..][1..] == str[prePos..];
    }
  }

  ghost predicate AllResolve(ps: seq<Piece>, env: Environment) {
    forall i :: 0 <= i < |ps| ==> Resolves(ps[i], env)
  }

  lemma {:induction false} UnresolvedCounts(ps: seq<Piece>, env: Environment)
    ensures Unresolved(ps, env) == 0 <==> AllResolve(ps, env)
  {
    if ps != [] {
      UnresolvedCounts(ps[1..], env);
    }
  }

  // ---------- laws ----------

  function Written(p: Piece): string {
    if p.Unclosed? then p.before + p.raw else p.raw
  }

  function Unparse(ps: seq<Piece>): string {
    if ps == [] then "" else Written(ps[0]) + Unparse(ps[1..])
  }

  lemma UnparseTwo(p: Piece, q: Piece, ps: seq<Piece>)
    ensures Unparse([p, q] + ps) == Written(p) + Written(q) + Unparse(ps)
  {
    var all := [p, q] + ps;
    assert all[1..] == [q] + ps && all[1..][1..] == ps;
    assert Unparse(all) == Written(p) + (Written(q) + Unparse(ps));
  }

  lemma SplitAt(s: string, i: nat)
    requires i < |s| && s[i] == '$' && ClosedAt(s, i)
    ensures s == s[..i] + RefAt(s, i).raw + s[After(s, i)..]
  {
    hide EndOf, RTrim;
  }

  /** Parsing loses nothing: the pieces as written are the value. */
  lemma {:induction false} ParseLossless(s: string)
    ensures Unparse(Parse(s)) == s
    decreases |s|
  {
    hide Index, EndOf, RTrim, RefAt, After, Unparse;
    var i := Index(s, '$');
    if i < |s| && ClosedAt(s, i) {
      var rest := s[After(s, i)..];
      ParseLossless(rest);
      UnparseTwo(Text(s[..i]), RefAt(s, i), Parse(rest));
      SplitAt(s, i);
      RefIsRef(s, i);
    } else if i < |s| {
      UnparseOne(Unclosed(s[..i], s[i..]));
      assert s[..i] + s[i..] == s;
    } else {
      UnparseOne(Text(s));
    }
  }

  lemma UnparseOne(p: Piece)
    ensures Unparse([p]) == Written(p)
  {
  }

  lemma RefIsRef(s: string, i: nat)
    requires i < |s| && s[i] == '$' && ClosedAt(s, i)
    ensures RefAt(s, i).Ref?
  {
  }

  /** Every dollar of the value belongs to a reference or to an unclosed one, which is last. */
  lemma {:induction false} ParseShape(s: string)
    ensures forall p :: p in Parse(s) && p.Text? ==> '$' !in p.raw
    ensures forall i :: 0 <= i < |Parse(s)| && Parse(s)[i].Unclosed? ==> i == |Parse(s)| - 1
    decreases |s|
  {
    hide Index, EndOf, RTrim;
    var i := Index(s, '$');
    if i < |s| && ClosedAt(s, i) {
      ParseShape(s[After(s, i)..]);
    }
  }

  lemma {:induction false} IndexOfFirst(a: string, c: char, b: string)
    requires c !in a
    ensures Index(a + [c] + b, c) == |a|
  {
    if a != [] {
      assert a[0] in a && (a + [c] + b)[1..] == a[1..] + [c] + b;
      IndexOfFirst(a[1..], c, b);
    }
  }

  // Five equations, one for each form a value can have. Together with FormsCover they say what every
  // value expands to and whether it resolves, whatever the environment.

  /** What a reference to the name stands for. An undefined one vanishes, and makes the result fail. */
  lemma AfterReference(a: string, s: string, i: nat, env: Environment)
    requires i < |s| && s[i] == '$' && ClosedAt(s, i) && Index(s, '$') == i && s[..i] == a
    ensures var name, rest := RefAt(s, i).name, s[After(s, i)..];
            && RefAt(s, i).Ref?
            && Expand(Parse(s), env) == a + (if name in env then env[name] else "") + Expand(Parse(rest), env)
            && (AllResolve(Parse(s), env) <==> name in env && AllResolve(Parse(rest), env))
  {
    hide Index, RTrim, Expand, EndOf;
    var ref, rest := RefAt(s, i), Parse(s[After(s, i)..]);
    assert Parse(s) == [Text(a), ref] + rest;
    ExpandTwo(Text(a), ref, rest, env);
    ResolvesTwo(Text(a), ref, rest, env);
  }

  lemma ResolvesTwo(p: Piece, q: Piece, ps: seq<Piece>, env: Environment)
    ensures AllResolve([p, q] + ps, env) <==> Resolves(p, env) && Resolves(q, env) && AllResolve(ps, env)
  {
    var all := [p, q] + ps;
    assert all[0] == p && all[1] == q;
    forall i | 0 <= i < |ps| && AllResolve(all, env) ensures Resolves(ps[i], env) {
      assert all[i + 2] == ps[i];
    }
  }

  /** Without a dollar the value is copied. */
  lemma NothingToResolve(v: string, env: Environment)
    requires '$' !in v
    ensures Expand(Parse(v), env) == v && AllResolve(Parse(v), env)
  {
    hide Index;
    IndexAbsent(v, '$');
    ExpandOne(Text(v), env);
  }

  /** A closed brace: the text between the braces, without trailing whitespace, names the variable. Its
      value is copied verbatim, even when it contains dollars or braces itself, and scanning goes on in
      the original text. */
  lemma SubstitutedVerbatim(a: string, raw: string, b: string, env: Environment)
    requires '$' !in a && '}' !in raw
    ensures var v, name := a + "${" + raw + "}" + b, RTrim(raw);
            && Expand(Parse(v), env) == a + (if name in env then env[name] else "") + Expand(Parse(b), env)
            && (AllResolve(Parse(v), env) <==> name in env && AllResolve(Parse(b), env))
  {
    hide Index, RTrim, Expand, Contribution;
    var s, i := a + "${" + raw + "}" + b, |a|;
    assert s == a + ['$'] + (s[i + 1..]);
    IndexOfFirst(a, '$', s[i + 1..]);
    assert s[i..] == ("${" + raw) + ['}'] + b;
    IndexOfFirst("${" + raw, '}', b);
    assert BracedAt(s, i) && EndOf(s, i) == i + 2 + |raw| && ClosedAt(s, i);
    assert s[i + 2..i + 2 + |raw|] == raw && s[After(s, i)..] == b && s[..i] == a;
    AfterReference(a, s, i, env);
  }

  lemma PlainEnd(a: string, raw: string, tail: string)
    requires '$' !in a && ' ' !in raw && (raw == "" || raw[0] != '{') && (tail == "" || tail[0] == ' ')
    ensures var s, i := a + "$" + raw + tail, |a|;
            Index(s, '$') == i && s[i] == '$' && !BracedAt(s, i) && EndOf(s, i) == i + 1 + |raw|
  {
    hide Index;
    var s, i := a + "$" + raw + tail, |a|;
    assert s == a + ['$'] + (s[i + 1..]);
    IndexOfFirst(a, '$', s[i + 1..]);
    if tail == "" {
      assert s[i..] == "$" + raw;
      IndexAbsent("$" + raw, ' ');
    } else {
      assert s[i..] == ("$" + raw) + [' '] + tail[1..];
      IndexOfFirst("$" + raw, ' ', tail[1..]);
    }
    assert raw != "" ==> s[i + 1] == raw[0];
  }

  /** The plain form ends at the next space, or with the value; whitespace of other kinds before that
      belongs to the reference and vanishes with it. */
  lemma PlainSubstituted(a: string, raw: string, tail: string, env: Environment)
    requires '$' !in a && ' ' !in raw && (raw == "" || raw[0] != '{') && (tail == "" || tail[0] == ' ')
    ensures var v, name := a + "$" + raw + tail, RTrim(raw);
            && Expand(Parse(v), env) == a + (if name in env then env[name] else "") + Expand(Parse(tail), env)
            && (AllResolve(Parse(v), env) <==> name in env && AllResolve(Parse(tail), env))
  {
    hide Index, RTrim, Expand, Contribution, EndOf, BracedAt;
    var s, i := a + "$" + raw + tail, |a|;
    PlainEnd(a, raw, tail);
    assert s[i + 1..i + 1 + |raw|] == raw && s[After(s, i)..] == tail && s[..i] == a;
    AfterReference(a, s, i, env);
  }

  /** The plain form at the end of the value. */
  lemma PlainAtEnd(a: string, raw: string, env: Environment)
    requires '$' !in a && ' ' !in raw && (raw == "" || raw[0] != '{')
    ensures var v, name := a + "$" + raw, RTrim(raw);
            && Expand(Parse(v), env) == a + (if name in env then env[name] else "")
            && (AllResolve(Parse(v), env) <==> name in env)
  {
    hide RTrim, Expand, Parse;
    PlainSubstituted(a, raw, "", env);
    NothingToResolve("", env);
    assert a + "$" + raw + "" == a + "$" + raw;
  }

  /** An unclosed brace makes the result fail, and repeats the text before it. */
  lemma UnclosedRepeats(a: string, rest: string, env: Environment)
    requires '$' !in a && '}' !in rest
    ensures Expand(Parse(a + "${" + rest), env) == a + a + "${" + rest
    ensures !AllResolve(Parse(a + "${" + rest), env)
  {
    hide Index, RTrim, Expand;
    var s, i := a + "${" + rest, |a|;
    assert s == a + ['$'] + (s[i + 1..]);
    IndexOfFirst(a, '$', s[i + 1..]);
    assert s[i..] == "${" + rest && s[..i] == a;
    IndexAbsent("${" + rest, '}');
    assert BracedAt(s, i) && !ClosedAt(s, i);
    ExpandOne(Unclosed(a, s[i..]), env);
    assert Parse(s)[0] == Unclosed(a, s[i..]);
  }

  lemma {:induction false} IndexAbsent(s: string, c: char)
    requires c !in s
    ensures Index(s, c) == |s|
  {
    if s != [] {
      assert s[0] in s;
      IndexAbsent(s[1..], c);
    }
  }

  /** The five forms: no dollar; a closed brace; a plain reference before a space or at the end; an
      unclosed brace. */
  ghost predicate HasForm(v: string, a: string, raw: string, tail: string) {
    && '$' !in a
    && (|| (v == a && '$' !in v)
        || (v == a + "${" + raw + "}" + tail && '}' !in raw)
        || (v == a + "$" + raw + tail && ' ' !in raw && (raw == "" || raw[0] != '{') && (tail == "" || tail[0] == ' '))
        || (v == a + "${" + raw && '}' !in raw))
  }

  lemma Absent(s: string, c: char, n: nat)
    requires n <= |s| && forall i :: 0 <= i < n ==> s[i] != c
    ensures c !in s[..n]
  {
  }

  lemma BracedForm(a: string, rest: string) returns (raw: string, tail: string)
    requires '$' !in a
    ensures HasForm(a + "${" + rest, a, raw, tail)
  {
    hide Index;
    var n := Index(rest, '}');
    Absent(rest, '}', n);
    raw, tail := rest[..n], if n < |rest| then rest[n + 1..] else "";
    if n < |rest| {
      assert rest == raw + "}" + tail;
      assert a + "${" + rest == a + "${" + raw + "}" + tail;
    } else {
      assert rest == raw;
    }
  }

  lemma PlainForm(a: string, rest: string) returns (raw: string, tail: string)
    requires '$' !in a && (rest == "" || rest[0] != '{')
    ensures HasForm(a + "$" + rest, a, raw, tail)
  {
    hide Index;
    var n := Index(rest, ' ');
    Absent(rest, ' ', n);
    raw, tail := rest[..n], rest[n..];
    assert rest == raw + tail;
    assert a + "$" + rest == a + "$" + raw + tail;
  }

  /** Every value has one of the five forms. */
  lemma FormsCover(v: string)
    ensures exists a, raw, tail :: HasForm(v, a, raw, tail)
  {
    hide Index, HasForm;
    var i := Index(v, '$');
    Absent(v, '$', i);
    if i == |v| {
      assert v[..i] == v;
      assert HasForm(v, v, "", "") by {
        WholeForm(v);
      }
    } else if BracedAt(v, i) {
      var raw, tail := BracedForm(v[..i], v[i + 2..]);
      assert v == v[..i] + "${" + v[i + 2..];
    } else {
      var raw, tail := PlainForm(v[..i], v[i + 1..]);
      assert v == v[..i] + "$" + v[i + 1..];
    }
  }

  lemma WholeForm(v: string)
    requires '$' !in v
    ensures HasForm(v, v, "", "")
  {
  }
}

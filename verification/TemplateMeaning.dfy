/** What the rewriter of module Template accepts, where its errors point, and what the rewritten
    text means to the text renderer. */
module TemplateMeaning {
  import opened Wrappers
  import opened Template

  // Acceptance

  ghost function Literals(s: string, from: nat, matches: seq<Match>): seq<string>
    requires Chain(s, from, matches)
    decreases |matches|
  {
    if matches == [] then [s[from..]]
    else [s[from..matches[0].start]] + Literals(s, matches[0].end, matches[1..])
  }

  /** Literals and placeholders, in turn, are the source. */
  ghost function Reassembled(s: string, from: nat, matches: seq<Match>): string
    requires Chain(s, from, matches)
    decreases |matches|
  {
    if matches == [] then s[from..]
    else s[from..matches[0].start] + s[matches[0].start..matches[0].end] + Reassembled(s, matches[0].end, matches[1..])
  }

  lemma SplitTwice(s: string, from: nat, a: nat, b: nat)
    requires from <= a <= b <= |s|
    ensures s[from..a] + s[a..b] + s[b..] == s[from..]
  {
  }

  lemma {:induction false} SegmentsPartition(s: string, from: nat, matches: seq<Match>)
    requires Chain(s, from, matches)
    ensures Reassembled(s, from, matches) == s[from..]
    decreases |matches|
  {
    if matches != [] {
      SegmentsPartition(s, matches[0].end, matches[1..]);
      SplitTwice(s, from, matches[0].start, matches[0].end);
    }
  }

  lemma {:induction false} NoErrorIff(s: string, from: nat, matches: seq<Match>, allowed: set<string>)
    requires Chain(s, from, matches)
    ensures FirstError(s, from, matches, allowed).None? <==>
      (forall literal <- Literals(s, from, matches) :: !HasDelimiter(literal)) && Names(s, from, matches) <= allowed
    decreases |matches|
  {
    hide HasDelimiter, Placeholder;
    if matches != [] {
      ChainNext(s, from, matches, allowed);
      NoErrorIff(s, matches[0].end, matches[1..], allowed);
      var rest := Literals(s, matches[0].end, matches[1..]);
      assert forall literal :: literal in [s[from..matches[0].start]] + rest <==>
          literal == s[from..matches[0].start] || literal in rest;
    } else {
      assert Literals(s, from, matches) == [s[from..]];
    }
  }

  lemma {:induction false} NoneMissingIff(required: seq<string>, used: set<string>)
    ensures FirstMissing(required, used).None? <==> forall r <- required :: r in used
  {
    if required != [] {
      NoneMissingIff(required[1..], used);
      assert required == [required[0]] + required[1..];
    }
  }

  predicate IsWhite(s: string) {
    forall k | 0 <= k < |s| ::
      s[k] == ' ' || s[k] == '\t' || s[k] == '\n' || s[k] == '\U{000B}' || s[k] == '\U{000C}' || s[k] == '\r'
  }

  /** A source is accepted exactly when it is not blank, no literal holds a delimiter, every name is
      allowed and every required name occurs. */
  lemma AcceptedIff(s: string, allowed: set<string>, required: seq<string>)
    ensures Chain(s, 0, FindFrom(s, 0))
    ensures Prepared(s, allowed, required).Ok? <==>
      && !IsWhite(s)
      && (forall literal <- Literals(s, 0, FindFrom(s, 0)) :: !HasDelimiter(literal))
      && Names(s, 0, FindFrom(s, 0)) <= allowed
      && (forall r <- required :: r in Names(s, 0, FindFrom(s, 0)))
    ensures Prepared(s, allowed, required) == Err(EmptyPart) <==> IsWhite(s)
  {
    hide FindFrom;
    FoundChain(s);
    NoErrorIff(s, 0, FindFrom(s, 0), allowed);
    NoneMissingIff(required, Names(s, 0, FindFrom(s, 0)));
  }

  // Errors

  /** The two characters at `k` touch the placeholder. */
  predicate Touches(m: Match, k: int) {
    m.start <= k + 1 && k < m.end
  }

  lemma {:induction false} ChainAfter(s: string, from: nat, matches: seq<Match>)
    requires Chain(s, from, matches)
    ensures forall m <- matches :: from <= m.start
    decreases |matches|
  {
    if matches != [] {
      ChainAfter(s, matches[0].end, matches[1..]);
      assert matches == [matches[0]] + matches[1..];
    }
  }

  lemma LiteralDelimiters(s: string, from: nat, to: nat)
    requires from <= to <= |s|
    ensures HasDelimiter(s[from..to]) ==>
      var o := from + MalformedOffset(s[from..to]);
      from <= o <= to - 2 && DelimiterAt(s, o) && forall k | from <= k < o :: !DelimiterAt(s, k)
    ensures !HasDelimiter(s[from..to]) ==> forall k | from <= k <= to - 2 :: !DelimiterAt(s, k)
  {
    forall k | from <= k <= to - 2 ensures DelimiterAt(s, k) == DelimiterAt(s[from..to], k - from) {
    }
  }

  lemma {:induction false} MalformedAt(s: string, from: nat, matches: seq<Match>, allowed: set<string>, o: int)
    requires Chain(s, from, matches) && FirstError(s, from, matches, allowed) == Some(Malformed(o))
    ensures from <= o && DelimiterAt(s, o) && (forall m <- matches :: !Touches(m, o))
    ensures forall k | from <= k < o && DelimiterAt(s, k) :: exists m <- matches :: Touches(m, k)
    decreases |matches|
  {
    hide HasDelimiter, DelimiterAt, Placeholder, MalformedOffset;
    ChainAfter(s, from, matches);
    if matches == [] {
      LiteralDelimiters(s, from, |s|);
      assert s[from..|s|] == s[from..];
    } else {
      var m := matches[0];
      ChainNext(s, from, matches, allowed);
      LiteralDelimiters(s, from, m.start);
      ChainAfter(s, m.end, matches[1..]);
      assert matches == [m] + matches[1..];
      if !HasDelimiter(s[from..m.start]) {
        MalformedAt(s, m.end, matches[1..], allowed, o);
        forall k | from <= k < o && DelimiterAt(s, k) ensures exists n <- matches :: Touches(n, k) {
          if k < m.end {
            assert Touches(m, k);
          } else {
            var n :| n in matches[1..] && Touches(n, k);
            assert n in matches;
          }
        }
      }
    }
  }

  lemma {:induction false} UnknownAt(s: string, from: nat, matches: seq<Match>, allowed: set<string>, o: int)
    requires Chain(s, from, matches) && FirstError(s, from, matches, allowed) == Some(UnknownVariable(o))
    ensures exists m <- matches :: m.start == o && Placeholder(s, m) && Name(s, m) !in allowed
    decreases |matches|
  {
    if matches != [] {
      var m := matches[0];
      if Name(s, m) in allowed {
        UnknownAt(s, m.end, matches[1..], allowed, o);
        var n :| n in matches[1..] && n.start == o && Placeholder(s, n) && Name(s, n) !in allowed;
        assert n in matches;
      }
    }
  }

  /** A rejected delimiter is a real one outside every placeholder, and the first such; a rejected
      variable's offset is where its placeholder starts. */
  lemma ErrorsPoint(s: string, allowed: set<string>, required: seq<string>, o: int)
    ensures Prepared(s, allowed, required) == Err(Malformed(o)) ==>
      && DelimiterAt(s, o) && (forall m <- FindFrom(s, 0) :: !Touches(m, o))
      && (forall k | 0 <= k < o && DelimiterAt(s, k) :: exists m <- FindFrom(s, 0) :: Touches(m, k))
    ensures Prepared(s, allowed, required) == Err(UnknownVariable(o)) ==>
      exists m <- FindFrom(s, 0) :: m.start == o && Placeholder(s, m) && Name(s, m) !in allowed
  {
    hide FindFrom, DelimiterAt;
    FoundChain(s);
    MissingIsMissing(required, Names(s, 0, FindFrom(s, 0)));
    if Prepared(s, allowed, required) == Err(Malformed(o)) {
      MalformedAt(s, 0, FindFrom(s, 0), allowed, o);
    }
    if Prepared(s, allowed, required) == Err(UnknownVariable(o)) {
      UnknownAt(s, 0, FindFrom(s, 0), allowed, o);
    }
  }

  lemma {:induction false} MissingIsMissing(required: seq<string>, used: set<string>)
    ensures FirstMissing(required, used).Some? ==> FirstMissing(required, used).value.MissingPlaceholder?
  {
    if required != [] {
      MissingIsMissing(required[1..], used);
    }
  }

  // Meaning

  datatype EvalError = UnexpectedCharacter | OtherAction

  const INDEX := "index . \""

  /** First position of a character; the length if there is none. */
  function IndexChar(s: string, c: char): (at: nat)
    ensures at <= |s| && (forall k | 0 <= k < at :: s[k] != c) && (at < |s| ==> s[at] == c)
  {
    if s == [] || s[0] == c then 0 else 1 + IndexChar(s[1..], c)
  }

  predicate PlainName(s: string) {
    forall k | 0 <= k < |s| :: s[k] != '\\' && s[k] != '\n'
  }

  function Lookup(data: map<string, string>, name: string): string {
    if name in data then data[name] else ""
  }

  /** The text renderer on literals and lookups by name: an action opens at the first two braces; a
      further brace cannot start one; other actions are outside the model. */
  function Eval(text: string, data: map<string, string>): Result<string, EvalError>
    decreases |text|
  {
    var at := IndexPair(text, '{');
    if at == -1 then Ok(text)
    else
      var action := text[at + 2..];
      if action != [] && action[0] == '{' then Err(UnexpectedCharacter)
      else if |action| < |INDEX| || action[..|INDEX|] != INDEX then Err(OtherAction)
      else
        var tail := action[|INDEX|..];
        var quote := IndexChar(tail, '"');
        if quote + |CLOSE| > |tail| || tail[quote..quote + |CLOSE|] != CLOSE || !PlainName(tail[..quote])
        then Err(OtherAction)
        else
          var rest := Eval(tail[quote + |CLOSE|..], data);
          if rest.Err? then rest else Ok(text[..at] + Lookup(data, tail[..quote]) + rest.value)
  }

  /** A literal just before a placeholder ends in an opening brace. */
  ghost predicate BraceBefore(s: string, from: nat, matches: seq<Match>)
    requires Chain(s, from, matches)
    decreases |matches|
  {
    matches != [] &&
    ((from < matches[0].start && s[matches[0].start - 1] == '{') || BraceBefore(s, matches[0].end, matches[1..]))
  }

  /** The source with each placeholder replaced by its value. */
  ghost function Substituted(s: string, from: nat, matches: seq<Match>, data: map<string, string>): string
    requires Chain(s, from, matches)
    decreases |matches|
  {
    if matches == [] then s[from..]
    else
      var m := matches[0];
      s[from..m.start] + Lookup(data, Name(s, m)) + Substituted(s, m.end, matches[1..], data)
  }

  lemma FirstBraces(literal: string, action: string)
    requires !HasDelimiter(literal) && (action == [] || action[0] != '{')
    ensures IndexPair(literal + "{{" + action, '{') ==
      if literal != [] && literal[|literal| - 1] == '{' then |literal| - 1 else |literal|
  {
    var n, text := |literal|, literal + "{{" + action;
    forall k | 0 <= k && k + 2 <= n ensures !PairAt(text, '{', k) {
      assert !PairAt(literal, '{', k);
    }
    assert PairAt(text, '{', n);
    assert n > 0 ==> PairAt(text, '{', n - 1) == (literal[n - 1] == '{');
  }

  lemma QuotedName(name: string, rest: string)
    requires forall k | 0 <= k < |name| :: NameChar(name[k])
    ensures IndexChar(name + CLOSE + rest, '"') == |name| && PlainName(name)
    ensures (name + CLOSE + rest)[..|name|] == name && (name + CLOSE + rest)[|name|..|name| + |CLOSE|] == CLOSE
    ensures (name + CLOSE + rest)[|name| + |CLOSE|..] == rest
  {
    var tail := name + CLOSE + rest;
    assert tail[|name|] == '"';
    forall k | 0 <= k < |name| ensures tail[k] != '"' && name[k] != '\\' && name[k] != '\n' {
      assert NameChar(name[k]);
    }
  }

  lemma ActionParts(name: string, rest: string)
    ensures var action := INDEX + name + CLOSE + rest;
      action[0] == 'i' && action[..|INDEX|] == INDEX && action[|INDEX|..] == name + CLOSE + rest
  {
    assert INDEX + name + CLOSE + rest == INDEX + (name + CLOSE + rest);
  }

  lemma EvalBrace(text: string, at: nat, data: map<string, string>)
    requires IndexPair(text, '{') == at && at + 2 < |text| && text[at + 2] == '{'
    ensures Eval(text, data) == Err(UnexpectedCharacter)
  {
    hide IndexPair;
  }

  /** An action that looks up a name, evaluated. */
  lemma EvalLookup(text: string, at: nat, name: string, rest: string, data: map<string, string>)
    requires IndexPair(text, '{') == at && text[at + 2..] == INDEX + name + CLOSE + rest
    requires forall k | 0 <= k < |name| :: NameChar(name[k])
    ensures Eval(text, data) ==
      if Eval(rest, data).Err? then Eval(rest, data) else Ok(text[..at] + Lookup(data, name) + Eval(rest, data).value)
  {
    ActionParts(name, rest);
    QuotedName(name, rest);
    hide IndexPair, IndexChar, PlainName;
    var tail := text[at + 2..][|INDEX|..];
    assert tail == name + CLOSE + rest;
  }

  /** One rewritten placeholder behind a literal without delimiters. */
  lemma EvalAction(literal: string, name: string, rest: string, data: map<string, string>)
    requires !HasDelimiter(literal) && (forall k | 0 <= k < |name| :: NameChar(name[k]))
    ensures Eval(literal + OPEN + name + CLOSE + rest, data) ==
      if literal != [] && literal[|literal| - 1] == '{' then Err(UnexpectedCharacter)
      else if Eval(rest, data).Err? then Eval(rest, data)
      else Ok(literal + Lookup(data, name) + Eval(rest, data).value)
  {
    var action := INDEX + name + CLOSE + rest;
    var text := literal + "{{" + action;
    hide IndexPair, IndexChar, HasDelimiter, PlainName, NameChar, Eval;
    assert literal + OPEN + name + CLOSE + rest == text;
    ActionParts(name, rest);
    FirstBraces(literal, action);
    if literal != [] && literal[|literal| - 1] == '{' {
      EvalBrace(text, |literal| - 1, data);
    } else {
      assert text[|literal| + 2..] == action && text[..|literal|] == literal;
      EvalLookup(text, |literal|, name, rest, data);
    }
  }

  lemma {:induction false} EvalRewritten(s: string, from: nat, matches: seq<Match>, allowed: set<string>,
                                         data: map<string, string>)
    requires Chain(s, from, matches) && FirstError(s, from, matches, allowed).None?
    ensures Eval(Rewritten(s, from, matches), data) ==
      if BraceBefore(s, from, matches) then Err(UnexpectedCharacter) else Ok(Substituted(s, from, matches, data))
    decreases |matches|
  {
    hide Eval, HasDelimiter, IndexPair, Lookup;
    if matches == [] {
      ChainEnd(s, from, allowed);
      EvalLiteral(s[from..], data);
    } else {
      var m := matches[0];
      ChainNext(s, from, matches, allowed);
      EvalRewritten(s, m.end, matches[1..], allowed, data);
      NamesArePlain(s, m);
      var literal := s[from..m.start];
      assert literal != [] <==> from < m.start;
      EvalAction(literal, Name(s, m), Rewritten(s, m.end, matches[1..]), data);
    }
  }

  lemma EvalLiteral(s: string, data: map<string, string>)
    requires !HasDelimiter(s)
    ensures Eval(s, data) == Ok(s)
  {
  }

  lemma NamesArePlain(s: string, m: Match)
    requires Placeholder(s, m)
    ensures forall k | 0 <= k < |Name(s, m)| :: NameChar(Name(s, m)[k])
  {
  }

  /** An accepted source means what it says: the rewritten text renders as the source with every
      placeholder replaced by its value, values themselves never being read again, exactly when no
      literal before a placeholder ends in a brace. Otherwise the renderer refuses the text. */
  lemma RewritingPreservesMeaning(s: string, allowed: set<string>, required: seq<string>, data: map<string, string>)
    requires Prepared(s, allowed, required).Ok?
    ensures Chain(s, 0, FindFrom(s, 0))
    ensures Eval(Prepared(s, allowed, required).value, data) ==
      if BraceBefore(s, 0, FindFrom(s, 0)) then Err(UnexpectedCharacter)
      else Ok(Substituted(s, 0, FindFrom(s, 0), data))
  {
    hide FindFrom, Eval;
    FoundChain(s);
    EvalRewritten(s, 0, FindFrom(s, 0), allowed, data);
  }

  lemma ThreeBracesFound()
    ensures FindFrom("{{{a}}", 0) == [Match(1, 3, 4, 6)] && Placeholder("{{{a}}", Match(1, 3, 4, 6))
  {
    var s, m := "{{{a}}", Match(1, 3, 4, 6);
    assert Placeholder(s, m);
    assert MatchAt(s, 0).None?;
    hide MatchAt, Placeholder;
    MatchAtOnly(s, m);
    assert FindFrom(s, 6) == [];
    assert FindFrom(s, 1) == [m];
  }

  /** The excluded sources exist: three braces before a name are accepted and then refused. */
  lemma ThreeBraces(data: map<string, string>)
    ensures Prepared("{{{a}}", {"a"}, []).Ok?
    ensures Eval(Prepared("{{{a}}", {"a"}, []).value, data) == Err(UnexpectedCharacter)
  {
    var s, m := "{{{a}}", Match(1, 3, 4, 6);
    hide FindFrom, Eval, MatchAt, FirstError, Names, Rewritten, Substituted, IndexPair, Blank, Placeholder;
    ThreeBracesFound();
    FoundChain(s);
    ChainNext(s, 0, [m], {"a"});
    ChainEnd(s, 6, {"a"});
    ThreeBracesPlain();
    assert [m][1..] == [];
    RewritingPreservesMeaning(s, {"a"}, [], data);
  }

  lemma ThreeBracesPlain()
    ensures var s := "{{{a}}";
      !Blank(s) && s[0..1] == "{" && s[6..] == "" && !HasDelimiter("{") && !HasDelimiter("") && s[3..4] == "a"
  {
    assert !Space("{{{a}}"[0]);
  }
}

/** `RuleParser.parse`: normalises a rule specification, either a `'rule|rule:p1,p2'`
    string or an array of strings and rule objects, into an ordered list of
    descriptors `[name, ...params]` or `[rule]`. */
module RuleParser {
  import opened Text
  import opened Values

  /** One element of an array specification. */
  datatype Entry = Text(s: string) | Instance(rule: CustomRule)

  /** A field's rule specification. */
  datatype RuleSpec = Piped(s: string) | Entries(entries: seq<Entry>)

  /** A parsed rule: `[name, ...params]` for a string entry, `[rule]` for a rule object. */
  datatype Descriptor = Named(name: string, params: seq<string>) | Custom(rule: CustomRule)
  {
    /** The string tokens of a named descriptor, name first. */
    function Tokens(): seq<string>
      requires Named?
    {
      [name] + params
    }

    /** The parameters the descriptor passes on (none for a rule object). */
    function Args(): seq<string> {
      if Named? then params else []
    }
  }

  const Pipe: set<char> := {'|'}
  const ParamDelims: set<char> := {':', ','}

  /** Entries the filter keeps: rule objects, and strings that are not blank. */
  predicate Keeps(e: Entry) {
    e.Instance? || !IsBlank(e.s)
  }

  /** A descriptor as the parser produces it from a string entry: every token trimmed
      and free of ':' and ','. */
  predicate WellFormed(d: Descriptor) {
    d.Named? ==>
      forall k :: 0 <= k < |d.Tokens()| ==> IsTrimmed(d.Tokens()[k]) && Avoids(d.Tokens()[k], ParamDelims)
  }

  /** The tokens of a string entry: split on runs of ':' and ',', every piece trimmed. */
  function ParamTokens(s: string): (tokens: seq<string>)
    ensures |tokens| == |Split(s, ParamDelims)| >= 1
    ensures forall k :: 0 <= k < |tokens| ==> tokens[k] == Trim(Split(s, ParamDelims)[k])
    ensures forall k :: 0 <= k < |tokens| ==> IsTrimmed(tokens[k]) && Avoids(tokens[k], ParamDelims)
  {
    var pieces := Split(s, ParamDelims);
    var tokens := seq(|pieces|, k requires 0 <= k < |pieces| => Trim(pieces[k]));
    assert forall k :: 0 <= k < |tokens| ==> Avoids(tokens[k], ParamDelims) by {
      forall k | 0 <= k < |tokens|
        ensures Avoids(tokens[k], ParamDelims)
      {
        TrimInfix(pieces[k], ParamDelims);
      }
    }
    tokens
  }

  /** A kept entry turned into its descriptor: a string is split on runs of ':' and ','
      and every piece trimmed; a rule object is wrapped as is. */
  function Describe(e: Entry): (d: Descriptor)
    ensures e.Instance? ==> d == Custom(e.rule)
    ensures e.Text? ==> d.Named? && d.Tokens() == ParamTokens(e.s)
    ensures WellFormed(d)
  {
    match e
    case Instance(r) => Custom(r)
    case Text(s) =>
      var tokens := ParamTokens(s);
      NamedOfTokens(tokens);
      Named(tokens[0], tokens[1..])
  }

  /** A descriptor built from trimmed, delimiter-free tokens is well formed. */
  lemma NamedOfTokens(tokens: seq<string>)
    requires |tokens| >= 1
    requires forall k :: 0 <= k < |tokens| ==> IsTrimmed(tokens[k]) && Avoids(tokens[k], ParamDelims)
    ensures Named(tokens[0], tokens[1..]).Tokens() == tokens
    ensures WellFormed(Named(tokens[0], tokens[1..]))
  {
    assert [tokens[0]] + tokens[1..] == tokens;
  }

  /** Trimming only removes characters, so it adds no delimiter. */
  lemma TrimInfix(s: string, delims: set<char>)
    requires Avoids(s, delims)
    ensures Avoids(Trim(s), delims)
  {
    var t := TrimStart(s);
    AvoidsSlice(s, |s| - |t|, |s|, delims);
    AvoidsSlice(t, 0, |TrimEnd(t)|, delims);
  }

  lemma AvoidsSlice(s: string, i: nat, j: nat, delims: set<char>)
    requires Avoids(s, delims) && i <= j <= |s|
    ensures Avoids(s[i..j], delims)
  {
    forall k | 0 <= k < j - i
      ensures s[i..j][k] !in delims
    {
      assert s[i..j][k] == s[i + k];
    }
  }

  /** The filter then the map of `parse`, over a list of entries. */
  function ParseEntries(entries: seq<Entry>): (ds: seq<Descriptor>)
    ensures |ds| <= |entries|
  {
    if entries == [] then []
    else Contribution(entries[0]) + ParseEntries(entries[1..])
  }

  /** What one entry adds to the result: its descriptor if the filter keeps it. */
  function Contribution(e: Entry): (ds: seq<Descriptor>)
    ensures |ds| <= 1
  {
    if Keeps(e) then [Describe(e)] else []
  }

  /** Every descriptor the parser produces is well formed. */
  lemma {:induction false} ParseEntriesWellFormed(entries: seq<Entry>)
    ensures forall k :: 0 <= k < |ParseEntries(entries)| ==> WellFormed(ParseEntries(entries)[k])
    decreases |entries|
  {
    if entries != [] {
      ParseEntriesWellFormed(entries[1..]);
    }
  }

  /** Strings as string entries, in order. */
  function Texts(xs: seq<string>): (es: seq<Entry>)
    ensures |es| == |xs|
    ensures forall k :: 0 <= k < |xs| ==> es[k] == Text(xs[k])
  {
    seq(|xs|, k requires 0 <= k < |xs| => Text(xs[k]))
  }

  /** `RuleParser.parse`: a string is first split on runs of '|'. */
  function Parse(spec: RuleSpec): (ds: seq<Descriptor>)
    ensures forall k :: 0 <= k < |ds| ==> WellFormed(ds[k])
  {
    match spec
    case Piped(s) => ParseEntriesWellFormed(Texts(Split(s, Pipe))); ParseEntries(Texts(Split(s, Pipe)))
    case Entries(es) => ParseEntriesWellFormed(es); ParseEntries(es)
  }

  // ---------------------------------------------------------------------------
  // Order and filtering
  // ---------------------------------------------------------------------------

  /** Parsing runs entry by entry: the descriptors of a concatenation are the
      descriptors of each part, in the same order. */
  lemma {:induction false} ParseEntriesAppend(a: seq<Entry>, b: seq<Entry>)
    ensures ParseEntries(a + b) == ParseEntries(a) + ParseEntries(b)
    decreases |a|
  {
    if a == [] {
      assert a + b == b;
    } else {
      var h := Contribution(a[0]);
      assert (a + b)[0] == a[0];
      assert (a + b)[1..] == a[1..] + b;
      assert ParseEntries(a + b) == h + ParseEntries(a[1..] + b);
      ParseEntriesAppend(a[1..], b);
      assert h + (ParseEntries(a[1..]) + ParseEntries(b)) == (h + ParseEntries(a[1..])) + ParseEntries(b);
    }
  }

  /** A single entry yields its descriptor when it is kept and nothing otherwise. */
  lemma ParseEntry(e: Entry)
    ensures Keeps(e) ==> ParseEntries([e]) == [Describe(e)]
    ensures !Keeps(e) ==> ParseEntries([e]) == []
  {
    assert [e][1..] == [];
  }

  /** Positions of the entries the filter keeps. */
  function KeptIndices(es: seq<Entry>): set<nat> {
    set k: nat | k < |es| && Keeps(es[k])
  }

  /** One descriptor per kept entry: rule objects and non-blank strings. */
  lemma {:induction false} ParseEntriesLength(es: seq<Entry>)
    ensures |ParseEntries(es)| == |KeptIndices(es)|
    decreases |es|
  {
    if es == [] {
      assert KeptIndices(es) == {};
    } else {
      var init, last := es[..|es| - 1], es[|es| - 1];
      assert es == init + [last];
      ParseEntriesAppend(init, [last]);
      ParseEntry(last);
      ParseEntriesLength(init);
      KeptIndicesSnoc(init, last);
    }
  }

  lemma KeptIndicesSnoc(init: seq<Entry>, last: Entry)
    ensures |KeptIndices(init + [last])| == |KeptIndices(init)| + if Keeps(last) then 1 else 0
  {
    var es := init + [last];
    var tail: set<nat> := if Keeps(last) then {|init|} else {};
    forall k: nat
      ensures k in KeptIndices(es) <==> k in KeptIndices(init) + tail
    {
      if k < |init| {
        assert es[k] == init[k];
      }
    }
    assert KeptIndices(es) == KeptIndices(init) + tail;
    assert KeptIndices(init) !! tail;
  }

  /** An array of only blank strings parses to nothing. */
  lemma {:induction false} BlankEntriesParseEmpty(es: seq<Entry>)
    requires forall k :: 0 <= k < |es| ==> es[k].Text? && IsBlank(es[k].s)
    ensures ParseEntries(es) == []
    decreases |es|
  {
    if es != [] {
      BlankEntriesParseEmpty(es[1..]);
    }
  }

  /** Every character of every piece of a split comes from the split string. */
  lemma {:induction false} SplitPiecesFrom(s: string, delims: set<char>)
    ensures forall k, i :: 0 <= k < |Split(s, delims)| && 0 <= i < |Split(s, delims)[k]| ==> Split(s, delims)[k][i] in s
    decreases |s|
  {
    if s != [] {
      SplitPiecesFrom(s[1..], delims);
      var parts := Split(s, delims);
      forall k, i | 0 <= k < |parts| && 0 <= i < |parts[k]|
        ensures parts[k][i] in s
      {
        var rest := Split(s[1..], delims);
        if s[0] !in delims && k == 0 && i > 0 {
          assert parts[0][i] == rest[0][i - 1];
        } else if s[0] !in delims && k > 0 {
          assert parts[k] == rest[k];
        } else if s[0] in delims && !(|s| > 1 && s[1] in delims) {
          assert parts[k] == ([""] + rest)[k];
        }
      }
    }
  }

  /** A string spec made only of whitespace and pipes, the empty string included,
      parses to nothing. */
  lemma BlankPipedParsesEmpty(s: string)
    requires forall i :: 0 <= i < |s| ==> IsWhitespace(s[i]) || s[i] == '|'
    ensures Parse(Piped(s)) == []
  {
    var pieces := Split(s, Pipe);
    SplitPiecesFrom(s, Pipe);
    forall k | 0 <= k < |pieces|
      ensures IsBlank(pieces[k])
    {
      forall i | 0 <= i < |pieces[k]|
        ensures IsWhitespace(pieces[k][i])
      {
        assert pieces[k][i] in s;
        assert pieces[k][i] != '|';
      }
    }
    BlankEntriesParseEmpty(Texts(pieces));
  }

  /** Pieces of a string that avoids some characters avoid them too. */
  lemma SplitKeepsAvoiding(s: string, delims: set<char>, other: set<char>)
    requires Avoids(s, other)
    ensures forall k :: 0 <= k < |Split(s, delims)| ==> Avoids(Split(s, delims)[k], other)
  {
    SplitPiecesFrom(s, delims);
  }

  /** Every piece of string text in the specification avoids the characters. */
  predicate SpecAvoids(spec: RuleSpec, other: set<char>) {
    match spec
    case Piped(s) => Avoids(s, other)
    case Entries(es) => forall k :: 0 <= k < |es| ==> es[k].Text? ==> Avoids(es[k].s, other)
  }

  /** Parsing only splits and trims: a character absent from the entries is absent
      from every token. */
  lemma {:induction false} EntriesTokensAvoid(es: seq<Entry>, other: set<char>)
    requires forall k :: 0 <= k < |es| ==> es[k].Text? ==> Avoids(es[k].s, other)
    ensures forall k :: 0 <= k < |ParseEntries(es)| ==> ParseEntries(es)[k].Named? ==>
      forall j :: 0 <= j < |ParseEntries(es)[k].Tokens()| ==> Avoids(ParseEntries(es)[k].Tokens()[j], other)
    decreases |es|
  {
    if es != [] {
      EntriesTokensAvoid(es[1..], other);
      var e := es[0];
      if e.Text? {
        var pieces := Split(e.s, ParamDelims);
        SplitKeepsAvoiding(e.s, ParamDelims, other);
        forall k | 0 <= k < |pieces|
          ensures Avoids(Trim(pieces[k]), other)
        {
          TrimInfix(pieces[k], other);
        }
      }
    }
  }

  /** String entries give named descriptors. */
  lemma {:induction false} TextsParseNamed(es: seq<Entry>)
    requires forall k :: 0 <= k < |es| ==> es[k].Text?
    ensures forall k :: 0 <= k < |ParseEntries(es)| ==> ParseEntries(es)[k].Named?
    decreases |es|
  {
    if es != [] {
      TextsParseNamed(es[1..]);
    }
  }

  /** Tokens never contain a character the specification does not contain. */
  lemma ParseAvoids(spec: RuleSpec, other: set<char>)
    requires SpecAvoids(spec, other)
    ensures forall k :: 0 <= k < |Parse(spec)| ==> Parse(spec)[k].Named? ==>
      forall j :: 0 <= j < |Parse(spec)[k].Tokens()| ==> Avoids(Parse(spec)[k].Tokens()[j], other)
  {
    match spec
    case Entries(es) =>
      EntriesTokensAvoid(es, other);
    case Piped(s) =>
      var pieces := Split(s, Pipe);
      SplitKeepsAvoiding(s, Pipe, other);
      EntriesTokensAvoid(Texts(pieces), other);
  }

  /** The tokens of a string specification are trimmed and contain no '|', ':' or ','. */
  lemma PipedTokens(s: string)
    ensures forall k :: 0 <= k < |Parse(Piped(s))| ==>
      Parse(Piped(s))[k].Named? && WellFormed(Parse(Piped(s))[k]) &&
      forall j :: 0 <= j < |Parse(Piped(s))[k].Tokens()| ==> Avoids(Parse(Piped(s))[k].Tokens()[j], Pipe)
  {
    var es := Texts(Split(s, Pipe));
    TextsParseNamed(es);
    EntriesTokensAvoid(es, Pipe);
  }

  // ---------------------------------------------------------------------------
  // Round trips
  // ---------------------------------------------------------------------------

  /** The separators of a formatted descriptor: ':' before the first parameter and ','
      between the others. */
  function ParamSeps(n: nat): (seps: seq<string>)
    ensures |seps| == n
    ensures forall k :: 0 <= k < n ==> IsRun(seps[k], ParamDelims)
  {
    if n == 0 then [] else [":"] + seq(n - 1, _ => ",")
  }

  /** A descriptor written back as an array entry: `name:p1,p2,...`, or the rule object. */
  function Format(d: Descriptor): Entry {
    match d
    case Named(name, params) => Text(Weave([name] + params, ParamSeps(|params|)))
    case Custom(r) => Instance(r)
  }

  /** Descriptors that survive a format/parse round trip: rule objects, and names with
      parameters that are all non-empty, trimmed and free of ':' and ','. */
  predicate Canonical(d: Descriptor) {
    d.Named? ==>
      forall k :: 0 <= k < |d.Tokens()| ==>
        d.Tokens()[k] != [] && IsTrimmed(d.Tokens()[k]) && Avoids(d.Tokens()[k], ParamDelims)
  }

  lemma WeaveStartsWith(parts: seq<string>, seps: seq<string>)
    requires |parts| == |seps| + 1 && parts[0] != []
    ensures Weave(parts, seps) != [] && Weave(parts, seps)[0] == parts[0][0]
  {
  }

  /** Parsing a formatted canonical descriptor gives the descriptor back. */
  lemma DescribeFormat(d: Descriptor)
    requires Canonical(d)
    ensures Keeps(Format(d))
    ensures Describe(Format(d)) == d
  {
    if d.Named? {
      TokensOfFormat(d.Tokens());
      var r := Describe(Format(d));
      assert r.Tokens() == d.Tokens();
      assert r.name == r.Tokens()[0] && d.name == d.Tokens()[0];
      assert r.params == r.Tokens()[1..] && d.params == d.Tokens()[1..];
    }
  }

  /** The text of a formatted descriptor is not blank and tokenizes back into the
      descriptor's own tokens. */
  lemma TokensOfFormat(tokens: seq<string>)
    requires |tokens| >= 1
    requires forall k :: 0 <= k < |tokens| ==>
      tokens[k] != [] && IsTrimmed(tokens[k]) && Avoids(tokens[k], ParamDelims)
    ensures !IsBlank(Weave(tokens, ParamSeps(|tokens| - 1)))
    ensures ParamTokens(Weave(tokens, ParamSeps(|tokens| - 1))) == tokens
  {
    var seps := ParamSeps(|tokens| - 1);
    WeaveStartsWith(tokens, seps);
    var text := Weave(tokens, seps);
    assert !IsWhitespace(text[0]);
    SplitWeave(tokens, seps, ParamDelims);
    var pieces := Split(text, ParamDelims);
    forall k | 0 <= k < |pieces|
      ensures Trim(pieces[k]) == tokens[k]
    {
      TrimTrimmed(tokens[k]);
    }
  }

  lemma {:induction false} ParseFormatted(ds: seq<Descriptor>)
    requires forall k :: 0 <= k < |ds| ==> Canonical(ds[k])
    ensures ParseEntries(seq(|ds|, k requires 0 <= k < |ds| => Format(ds[k]))) == ds
    decreases |ds|
  {
    var es := seq(|ds|, k requires 0 <= k < |ds| => Format(ds[k]));
    if ds != [] {
      DescribeFormat(ds[0]);
      ParseFormatted(ds[1..]);
      assert es[1..] == seq(|ds[1..]|, k requires 0 <= k < |ds[1..]| => Format(ds[1..][k]));
      assert [ds[0]] + ds[1..] == ds;
    }
  }

  /** Entries joined by single pipes. */
  function JoinPipes(xs: seq<string>): string {
    if xs == [] then "" else Weave(xs, seq(|xs| - 1, _ => "|"))
  }

  lemma JoinPipesCons(xs: seq<string>)
    requires |xs| >= 2
    ensures JoinPipes(xs) == xs[0] + "|" + JoinPipes(xs[1..])
  {
    var seps := seq(|xs| - 1, _ => "|");
    assert seps[1..] == seq(|xs[1..]| - 1, _ => "|");
  }

  /** A piece that starts with a delimiter splits with an empty first piece. */
  lemma {:induction false} SplitLeadingDelim(s: string, delims: set<char>)
    requires s != [] && s[0] in delims
    ensures Split(s, delims)[0] == ""
    decreases |s|
  {
    if |s| > 1 && s[1] in delims {
      SplitLeadingDelim(s[1..], delims);
    }
  }

  lemma TextsAppend(a: seq<string>, b: seq<string>)
    ensures Texts(a + b) == Texts(a) + Texts(b)
  {
  }

  /** Splitting `x|rest` for a pipe-free `x` gives `x`, then the pieces of `rest`
      (less the empty first piece when `rest` starts with another pipe). */
  lemma SplitPipeAfter(x: string, rest: string)
    requires Avoids(x, Pipe)
    ensures var sr := Split(rest, Pipe);
      Split(x + "|" + rest, Pipe) == [x] + sr
      || (sr[0] == "" && Split(x + "|" + rest, Pipe) == [x] + sr[1..])
  {
    assert x + "|" + rest == x + ("|" + rest);
    SplitAfterPlainPrefix(x, "|" + rest, Pipe);
    var sr := Split(rest, Pipe);
    if rest == [] || rest[0] != '|' {
      SplitAfterRun("|", rest, Pipe);
      assert x + Split("|" + rest, Pipe)[0] == x + "" == x;
    } else {
      SplitLeadingDelim(rest, Pipe);
      assert ("|" + rest)[1..] == rest;
      assert Split("|" + rest, Pipe) == sr;
      assert x + sr[0] == x + "" == x;
    }
  }

  lemma ParseTextsCons(x: string, rest: seq<string>)
    ensures ParseEntries(Texts([x] + rest)) == ParseEntries([Text(x)]) + ParseEntries(Texts(rest))
  {
    TextsAppend([x], rest);
    assert Texts([x]) == [Text(x)];
    ParseEntriesAppend([Text(x)], Texts(rest));
  }

  /** An empty piece is blank and contributes nothing. */
  lemma ParseTextsEmptyHead(pieces: seq<string>)
    requires |pieces| >= 1 && pieces[0] == ""
    ensures ParseEntries(Texts(pieces)) == ParseEntries(Texts(pieces[1..]))
  {
    assert pieces == [""] + pieces[1..];
    ParseTextsCons("", pieces[1..]);
    ParseEntry(Text(""));
  }

  /** The descriptors of `x|rest` are those of `x` followed by those of `rest`. */
  lemma ParsePipeAfter(x: string, rest: string)
    requires Avoids(x, Pipe)
    ensures ParseEntries(Texts(Split(x + "|" + rest, Pipe)))
         == ParseEntries([Text(x)]) + ParseEntries(Texts(Split(rest, Pipe)))
  {
    var sr := Split(rest, Pipe);
    SplitPipeAfter(x, rest);
    if Split(x + "|" + rest, Pipe) == [x] + sr {
      ParseTextsCons(x, sr);
    } else {
      ParseTextsCons(x, sr[1..]);
      ParseTextsEmptyHead(sr);
    }
  }

  /** The array form and the piped string form agree: an array of pipe-free strings
      parses like the same strings joined by '|'. */
  lemma EntriesMatchPiped(xs: seq<string>)
    requires forall k :: 0 <= k < |xs| ==> Avoids(xs[k], Pipe)
    ensures Parse(Entries(Texts(xs))) == Parse(Piped(JoinPipes(xs)))
  {
    TextsMatchSplit(xs);
  }

  lemma {:induction false} TextsMatchSplit(xs: seq<string>)
    requires forall k :: 0 <= k < |xs| ==> Avoids(xs[k], Pipe)
    ensures ParseEntries(Texts(xs)) == ParseEntries(Texts(Split(JoinPipes(xs), Pipe)))
    decreases |xs|
  {
    if xs == [] {
      EmptyMatchesPiped();
    } else if |xs| == 1 {
      SingleMatchesPiped(xs[0]);
      assert xs == [xs[0]];
    } else {
      TextsMatchSplit(xs[1..]);
      ConsMatchesPiped(xs[0], xs[1..]);
      assert xs == [xs[0]] + xs[1..];
    }
  }

  lemma EmptyMatchesPiped()
    ensures ParseEntries(Texts([])) == ParseEntries(Texts(Split(JoinPipes([]), Pipe)))
  {
    assert Split(JoinPipes([]), Pipe) == [""];
    assert Texts([""]) == [Text("")];
    ParseEntry(Text(""));
  }

  lemma SingleMatchesPiped(x: string)
    requires Avoids(x, Pipe)
    ensures ParseEntries(Texts([x])) == ParseEntries(Texts(Split(JoinPipes([x]), Pipe)))
  {
    SplitAfterPlainPrefix(x, [], Pipe);
    assert x + [] == x;
    assert JoinPipes([x]) == x;
    assert Split(x, Pipe) == [x];
  }

  lemma ConsMatchesPiped(x: string, rest: seq<string>)
    requires Avoids(x, Pipe) && |rest| >= 1
    requires ParseEntries(Texts(rest)) == ParseEntries(Texts(Split(JoinPipes(rest), Pipe)))
    ensures ParseEntries(Texts([x] + rest)) == ParseEntries(Texts(Split(JoinPipes([x] + rest), Pipe)))
  {
    var y := JoinPipes(rest);
    JoinPipesCons([x] + rest);
    assert ([x] + rest)[1..] == rest;
    ParsePipeAfter(x, y);
    ParseTextsCons(x, rest);
  }

  /** Round trip over strings: canonical named descriptors whose tokens contain no '|',
      written as `name:p1,p2|name2|...` and parsed, come back unchanged. */
  /** The texts of formatted named descriptors, in order. */
  function FormatTexts(ds: seq<Descriptor>): (xs: seq<string>)
    requires forall k :: 0 <= k < |ds| ==> ds[k].Named?
    ensures |xs| == |ds|
    ensures forall k :: 0 <= k < |ds| ==> Text(xs[k]) == Format(ds[k])
  {
    seq(|ds|, k requires 0 <= k < |ds| => Format(ds[k]).s)
  }

  lemma PipedRoundTrip(ds: seq<Descriptor>)
    requires forall k :: 0 <= k < |ds| ==> ds[k].Named? && Canonical(ds[k])
    requires forall k, j :: 0 <= k < |ds| && 0 <= j < |ds[k].Tokens()| ==> Avoids(ds[k].Tokens()[j], Pipe)
    ensures Parse(Piped(JoinPipes(FormatTexts(ds)))) == ds
  {
    var xs := FormatTexts(ds);
    forall k | 0 <= k < |xs|
      ensures Avoids(xs[k], Pipe)
    {
      WeaveAvoids(ds[k].Tokens(), ParamSeps(|ds[k].params|), Pipe);
    }
    EntriesMatchPiped(xs);
    assert Texts(xs) == seq(|ds|, k requires 0 <= k < |ds| => Format(ds[k]));
    ParseFormatted(ds);
  }

  lemma {:induction false} WeaveAvoids(parts: seq<string>, seps: seq<string>, other: set<char>)
    requires |parts| == |seps| + 1
    requires forall k :: 0 <= k < |parts| ==> Avoids(parts[k], other)
    requires forall k :: 0 <= k < |seps| ==> Avoids(seps[k], other)
    ensures Avoids(Weave(parts, seps), other)
    decreases |seps|
  {
    if seps != [] {
      WeaveAvoids(parts[1..], seps[1..], other);
    }
  }
}

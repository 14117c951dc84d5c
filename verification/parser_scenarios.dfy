/** The behaviours the repository's test suites pin down. Each is first proved for
    any rule names of the same shape, then for the literal rule strings of the test. */
module ParserScenarios {
  import opened Text
  import opened Values
  import opened RuleParser

  // ---------------------------------------------------------------------------
  // Parser shapes
  // ---------------------------------------------------------------------------

  /** A rule name or parameter written plainly: non-empty, trimmed, no ':', ',' or '|'. */
  predicate Plain(x: string) {
    x != [] && IsTrimmed(x) && Avoids(x, ParamDelims) && Avoids(x, Pipe)
  }

  /** `name` on its own is the descriptor `[name]`. */
  lemma PlainName(name: string)
    requires Plain(name)
    ensures Contribution(Text(name)) == [Named(name, [])]
  {
    DescribeFormat(Named(name, []));
  }

  /** `name:p` is the descriptor `[name, p]`. */
  lemma OneParam(name: string, p: string)
    requires Plain(name) && Plain(p)
    ensures Contribution(Text(name + ":" + p)) == [Named(name, [p])]
  {
    var d := Named(name, [p]);
    assert d.Tokens() == [name, p];
    assert ParamSeps(1) == [":"];
    assert Weave([name, p], [":"]) == name + ":" + p;
    DescribeFormat(d);
  }

  /** `name:p1,p2` is the descriptor `[name, p1, p2]`. */
  lemma TwoParams(name: string, p1: string, p2: string)
    requires Plain(name) && Plain(p1) && Plain(p2)
    ensures Contribution(Text(name + ":" + p1 + "," + p2)) == [Named(name, [p1, p2])]
  {
    var d := Named(name, [p1, p2]);
    assert d.Tokens() == [name, p1, p2];
    assert ParamSeps(2) == [":", ","];
    assert Weave([name, p1, p2], [":", ","]) == name + ":" + p1 + "," + p2 by {
      assert Weave([p1, p2], [","]) == p1 + "," + p2;
    }
    DescribeFormat(d);
  }

  /** The blank strings of the tests are dropped. */
  lemma BlankEntries()
    ensures Contribution(Text("")) == [] && Contribution(Text(" ")) == []
  {
    assert IsBlank(" ") by {
      assert forall i :: 0 <= i < |" "| ==> " "[i] == ' ';
    }
  }

  lemma ParseEntriesCons(e: Entry, rest: seq<Entry>)
    ensures ParseEntries([e] + rest) == Contribution(e) + ParseEntries(rest)
  {
    assert ([e] + rest)[0] == e && ([e] + rest)[1..] == rest;
  }

  lemma Chain2(e1: Entry, e2: Entry, c1: seq<Descriptor>, c2: seq<Descriptor>)
    requires Contribution(e1) == c1 && Contribution(e2) == c2
    ensures ParseEntries([e1] + [e2]) == c1 + c2
  {
    ParseEntriesCons(e2, []);
    assert [e2] + [] == [e2];
    assert c2 + [] == c2;
    ParseEntriesCons(e1, [e2]);
  }

  lemma Chain3(e1: Entry, e2: Entry, e3: Entry, c1: seq<Descriptor>, c2: seq<Descriptor>, c3: seq<Descriptor>)
    requires Contribution(e1) == c1 && Contribution(e2) == c2 && Contribution(e3) == c3
    ensures ParseEntries([e1] + ([e2] + [e3])) == c1 + (c2 + c3)
  {
    Chain2(e2, e3, c2, c3);
    ParseEntriesCons(e1, [e2] + [e3]);
  }

  lemma Chain5(e1: Entry, e2: Entry, e3: Entry, e4: Entry, e5: Entry,
               c1: seq<Descriptor>, c2: seq<Descriptor>, c3: seq<Descriptor>, c4: seq<Descriptor>, c5: seq<Descriptor>)
    requires Contribution(e1) == c1 && Contribution(e2) == c2 && Contribution(e3) == c3
    requires Contribution(e4) == c4 && Contribution(e5) == c5
    ensures ParseEntries([e1] + ([e2] + ([e3] + ([e4] + [e5])))) == c1 + (c2 + (c3 + (c4 + c5)))
  {
    Chain3(e3, e4, e5, c3, c4, c5);
    ParseEntriesCons(e2, [e3] + ([e4] + [e5]));
    ParseEntriesCons(e1, [e2] + ([e3] + ([e4] + [e5])));
  }

  lemma Chain6(e1: Entry, e2: Entry, e3: Entry, e4: Entry, e5: Entry, e6: Entry,
               c1: seq<Descriptor>, c2: seq<Descriptor>, c3: seq<Descriptor>, c4: seq<Descriptor>, c5: seq<Descriptor>, c6: seq<Descriptor>)
    requires Contribution(e1) == c1 && Contribution(e2) == c2 && Contribution(e3) == c3
    requires Contribution(e4) == c4 && Contribution(e5) == c5 && Contribution(e6) == c6
    ensures ParseEntries([e1] + ([e2] + ([e3] + ([e4] + ([e5] + [e6]))))) == c1 + (c2 + (c3 + (c4 + (c5 + c6))))
  {
    Chain5(e2, e3, e4, e5, e6, c2, c3, c4, c5, c6);
    ParseEntriesCons(e1, [e2] + ([e3] + ([e4] + ([e5] + [e6]))));
  }

  lemma Texts2(x1: string, x2: string)
    ensures Texts([x1, x2]) == [Text(x1)] + [Text(x2)]
  {
  }

  lemma Texts5(x1: string, x2: string, x3: string, x4: string, x5: string)
    ensures Texts([x1, x2, x3, x4, x5]) == [Text(x1)] + ([Text(x2)] + ([Text(x3)] + ([Text(x4)] + [Text(x5)])))
  {
    var xs := [x1, x2, x3, x4, x5];
    assert xs[0] == x1 && xs[1] == x2 && xs[2] == x3 && xs[3] == x4 && xs[4] == x5;
  }

  lemma Nest5(x1: Entry, x2: Entry, x3: Entry, x4: Entry, x5: Entry)
    ensures [x1, x2, x3, x4, x5] == [x1] + ([x2] + ([x3] + ([x4] + [x5])))
  {
  }

  lemma Nest6(x1: Entry, x2: Entry, x3: Entry, x4: Entry, x5: Entry, x6: Entry)
    ensures [x1, x2, x3, x4, x5, x6] == [x1] + ([x2] + ([x3] + ([x4] + ([x5] + [x6]))))
  {
  }

  /** Parsing an array of five entries concatenates what each contributes. */
  lemma Display5(e1: Entry, e2: Entry, e3: Entry, e4: Entry, e5: Entry,
                 c1: seq<Descriptor>, c2: seq<Descriptor>, c3: seq<Descriptor>, c4: seq<Descriptor>, c5: seq<Descriptor>)
    requires Contribution(e1) == c1 && Contribution(e2) == c2 && Contribution(e3) == c3
    requires Contribution(e4) == c4 && Contribution(e5) == c5
    ensures Parse(Entries([e1, e2, e3, e4, e5])) == c1 + (c2 + (c3 + (c4 + c5)))
  {
    Nest5(e1, e2, e3, e4, e5);
    Chain5(e1, e2, e3, e4, e5, c1, c2, c3, c4, c5);
  }

  lemma Flat5(c1: seq<Descriptor>, c2: seq<Descriptor>, c3: seq<Descriptor>, c4: seq<Descriptor>, c5: seq<Descriptor>)
    requires |c1| == 1 && |c2| == 1 && c3 == [] && c4 == [] && |c5| == 1
    ensures c1 + (c2 + (c3 + (c4 + c5))) == [c1[0], c2[0], c5[0]]
  {
  }

  lemma Display6(e1: Entry, e2: Entry, e3: Entry, e4: Entry, e5: Entry, e6: Entry,
                 c1: seq<Descriptor>, c2: seq<Descriptor>, c3: seq<Descriptor>, c4: seq<Descriptor>, c5: seq<Descriptor>, c6: seq<Descriptor>)
    requires Contribution(e1) == c1 && Contribution(e2) == c2 && Contribution(e3) == c3
    requires Contribution(e4) == c4 && Contribution(e5) == c5 && Contribution(e6) == c6
    ensures Parse(Entries([e1, e2, e3, e4, e5, e6])) == c1 + (c2 + (c3 + (c4 + (c5 + c6))))
  {
    Nest6(e1, e2, e3, e4, e5, e6);
    Chain6(e1, e2, e3, e4, e5, e6, c1, c2, c3, c4, c5, c6);
  }

  lemma Flat6(c1: seq<Descriptor>, c2: seq<Descriptor>, c3: seq<Descriptor>, c4: seq<Descriptor>, c5: seq<Descriptor>, c6: seq<Descriptor>)
    requires |c1| == 1 && |c2| == 1 && c3 == [] && c4 == [] && |c5| == 1 && |c6| == 1
    ensures c1 + (c2 + (c3 + (c4 + (c5 + c6)))) == [c1[0], c2[0], c5[0], c6[0]]
  {
  }

  /** `a|b` parses like the array `[a, b]`. */
  lemma TwoNamesShape(a: string, b: string)
    requires Plain(a) && Plain(b)
    ensures Parse(Piped(a + "|" + b)) == [Named(a, []), Named(b, [])]
  {
    var pieces := [a, b];
    assert Weave(pieces, ["|"]) == a + "|" + b;
    SplitWeave(pieces, ["|"], Pipe);
    Texts2(a, b);
    PlainName(a);
    PlainName(b);
    Chain2(Text(a), Text(b), [Named(a, [])], [Named(b, [])]);
  }

  /** `|a| |b|`: the empty and blank pieces around the names produce no rule. */
  lemma StrayPipesShape(a: string, b: string)
    requires Plain(a) && Plain(b)
    ensures Parse(Piped("|" + a + "| |" + b + "|")) == [Named(a, []), Named(b, [])]
  {
    var pieces := ["", a, " ", b, ""];
    assert Weave(pieces, ["|", "|", "|", "|"]) == "|" + a + "| |" + b + "|";
    SplitWeave(pieces, ["|", "|", "|", "|"], Pipe);
    StrayEntries(a, b);
  }

  lemma StrayEntries(a: string, b: string)
    requires Plain(a) && Plain(b)
    ensures ParseEntries(Texts(["", a, " ", b, ""])) == [Named(a, []), Named(b, [])]
  {
    PlainName(a);
    PlainName(b);
    BlankEntries();
    Texts5("", a, " ", b, "");
    Chain5(Text(""), Text(a), Text(" "), Text(b), Text(""), [], [Named(a, [])], [], [Named(b, [])], []);
  }

  /** `n:p1,p2` holds no pipe when its parts hold none. */
  lemma ParamTextAvoidsPipe(n: string, p1: string, p2: string)
    requires Plain(n) && Plain(p1) && Plain(p2)
    ensures Avoids(n + ":" + p1 + "," + p2, Pipe)
  {
    AvoidsConcat(n, ":", Pipe);
    AvoidsConcat(n + ":", p1, Pipe);
    AvoidsConcat(n + ":" + p1, ",", Pipe);
    AvoidsConcat(n + ":" + p1 + ",", p2, Pipe);
  }

  /** `||a| |b|n:p1,p2`: a run of pipes counts as one separator. */
  lemma DoublePipeShape(a: string, b: string, n: string, p1: string, p2: string)
    requires Plain(a) && Plain(b) && Plain(n) && Plain(p1) && Plain(p2)
    ensures Parse(Piped("||" + a + "| |" + b + "|" + n + ":" + p1 + "," + p2))
         == [Named(a, []), Named(b, []), Named(n, [p1, p2])]
  {
    var last := n + ":" + p1 + "," + p2;
    ParamTextAvoidsPipe(n, p1, p2);
    DoublePipeWeave(a, b, last);
    DoublePipeRegroup(a, b, n, p1, p2);
    TripleEntries(a, b, n, p1, p2);
  }

  lemma DoublePipeWeave(a: string, b: string, last: string)
    requires Plain(a) && Plain(b) && last != [] && Avoids(last, Pipe)
    ensures Split("||" + a + "| |" + b + "|" + last, Pipe) == ["", a, " ", b, last]
  {
    var pieces := ["", a, " ", b, last];
    var runs := ["||", "|", "|", "|"];
    assert Weave(pieces, runs) == "||" + a + "| |" + b + "|" + last;
    assert IsRun("||", Pipe) by {
      assert forall i :: 0 <= i < |"||"| ==> "||"[i] == '|';
    }
    SplitWeave(pieces, runs, Pipe);
  }

  lemma DoublePipeRegroup(a: string, b: string, n: string, p1: string, p2: string)
    ensures "||" + a + "| |" + b + "|" + (n + ":" + p1 + "," + p2)
         == "||" + a + "| |" + b + "|" + n + ":" + p1 + "," + p2
  {
  }

  lemma TripleEntries(a: string, b: string, n: string, p1: string, p2: string)
    requires Plain(a) && Plain(b) && Plain(n) && Plain(p1) && Plain(p2)
    ensures ParseEntries(Texts(["", a, " ", b, n + ":" + p1 + "," + p2]))
         == [Named(a, []), Named(b, []), Named(n, [p1, p2])]
  {
    var last := n + ":" + p1 + "," + p2;
    PlainName(a);
    PlainName(b);
    TwoParams(n, p1, p2);
    BlankEntries();
    Texts5("", a, " ", b, last);
    Chain5(Text(""), Text(a), Text(" "), Text(b), Text(last),
           [], [Named(a, [])], [], [Named(b, [])], [Named(n, [p1, p2])]);
  }

  /** The array form `[a, b, "", " ", "n:p1,p2"]` gives the same rules as the string. */
  lemma ArrayShape(a: string, b: string, n: string, p1: string, p2: string, last: string)
    requires Plain(a) && Plain(b) && Plain(n) && Plain(p1) && Plain(p2)
    requires last == n + ":" + p1 + "," + p2
    ensures Parse(Entries([Text(a), Text(b), Text(""), Text(" "), Text(last)]))
         == [Named(a, []), Named(b, []), Named(n, [p1, p2])]
  {
    PlainName(a);
    PlainName(b);
    TwoParams(n, p1, p2);
    BlankEntries();
    Display5(Text(a), Text(b), Text(""), Text(" "), Text(last),
             [Named(a, [])], [Named(b, [])], [], [], [Named(n, [p1, p2])]);
    Flat5([Named(a, [])], [Named(b, [])], [], [], [Named(n, [p1, p2])]);
  }

  /** A rule object contributes itself. */
  lemma InstanceEntry(rule: CustomRule)
    ensures Contribution(Instance(rule)) == [Custom(rule)]
  {
  }

  /** Six entries of which the third and fourth are dropped. */
  lemma DropMiddleTwo(e1: Entry, e2: Entry, e3: Entry, e4: Entry, e5: Entry, e6: Entry,
                      d1: Descriptor, d2: Descriptor, d5: Descriptor, d6: Descriptor)
    requires Contribution(e1) == [d1] && Contribution(e2) == [d2] && Contribution(e3) == []
    requires Contribution(e4) == [] && Contribution(e5) == [d5] && Contribution(e6) == [d6]
    ensures Parse(Entries([e1, e2, e3, e4, e5, e6])) == [d1, d2, d5, d6]
  {
    Display6(e1, e2, e3, e4, e5, e6, [d1], [d2], [], [], [d5], [d6]);
    Flat6([d1], [d2], [], [], [d5], [d6]);
  }

  /** A rule object in the array is passed through as it is, after the string rules. */
  lemma ArrayWithRuleShape(a: string, b: string, n: string, p1: string, p2: string, last: string, rule: CustomRule)
    requires Plain(a) && Plain(b) && Plain(n) && Plain(p1) && Plain(p2)
    requires last == n + ":" + p1 + "," + p2
    ensures Parse(Entries([Text(a), Text(b), Text(""), Text(" "), Text(last), Instance(rule)]))
         == [Named(a, []), Named(b, []), Named(n, [p1, p2]), Custom(rule)]
  {
    PlainName(a);
    PlainName(b);
    TwoParams(n, p1, p2);
    BlankEntries();
    InstanceEntry(rule);
    DropMiddleTwo(Text(a), Text(b), Text(""), Text(" "), Text(last), Instance(rule),
                  Named(a, []), Named(b, []), Named(n, [p1, p2]), Custom(rule));
  }

  /** A single rule name. */
  lemma OneNameShape(a: string)
    requires Plain(a)
    ensures Parse(Piped(a)) == [Named(a, [])]
  {
    SplitWeave([a], [], Pipe);
    assert Texts([a]) == [Text(a)] + [];
    PlainName(a);
    ParseEntriesCons(Text(a), []);
  }

  /** `a|n:p`, as in `required|abcdefghi:10` and `required|min:10`. */
  lemma NameParamShape(a: string, n: string, p: string, s: string)
    requires Plain(a) && Plain(n) && Plain(p)
    requires s == a + "|" + n + ":" + p
    ensures Parse(Piped(s)) == [Named(a, []), Named(n, [p])]
  {
    var last := n + ":" + p;
    assert Avoids(last, Pipe) by {
      AvoidsConcat(n, ":", Pipe);
      AvoidsConcat(n + ":", p, Pipe);
    }
    assert Weave([a, last], ["|"]) == s;
    SplitWeave([a, last], ["|"], Pipe);
    Texts2(a, last);
    PlainName(a);
    OneParam(n, p);
    Chain2(Text(a), Text(last), [Named(a, [])], [Named(n, [p])]);
  }

  /** A plain name with plain parameters is canonical and holds no pipe. */
  lemma PlainCanonical(name: string, params: seq<string>)
    requires Plain(name) && forall k :: 0 <= k < |params| ==> Plain(params[k])
    ensures Canonical(Named(name, params))
    ensures forall j :: 0 <= j < |Named(name, params).Tokens()| ==> Avoids(Named(name, params).Tokens()[j], Pipe)
  {
    var ts := Named(name, params).Tokens();
    assert ts == [name] + params;
    forall j | 0 <= j < |ts|
      ensures Plain(ts[j])
    {
      if j > 0 {
        assert ts[j] == params[j - 1];
      }
    }
  }

  /** The texts of `a`, `b` and `n:p` as descriptors. */
  lemma ThreeFormats(a: string, b: string, n: string, p: string)
    ensures var ds := [Named(a, []), Named(b, []), Named(n, [p])];
      FormatTexts(ds) == [a, b, n + ":" + p]
  {
    var ds := [Named(a, []), Named(b, []), Named(n, [p])];
    assert [a] + [] == [a] && [b] + [] == [b];
    assert ParamSeps(0) == [];
    assert ParamSeps(1) == [":"] by {
      assert seq(0, _ => ",") == [];
    }
    assert [n] + [p] == [n, p] && [n, p][1..] == [p];
    assert Weave([n, p], [":"]) == n + ":" + p;
    assert Format(ds[0]).s == a && Format(ds[1]).s == b && Format(ds[2]).s == n + ":" + p;
  }

  lemma ThreeJoin(a: string, b: string, x: string)
    ensures JoinPipes([a, b, x]) == a + "|" + b + "|" + x
  {
    var seps := seq(2, _ => "|");
    assert seps == ["|", "|"];
    assert [a, b, x][1..] == [b, x] && seps[1..] == ["|"];
    assert Weave([b, x], ["|"]) == b + "|" + x;
    assert Weave([a, b, x], seps) == a + "|" + (b + "|" + x);
  }

  lemma Regroup(a: string, b: string, n: string, p: string)
    ensures a + "|" + b + "|" + (n + ":" + p) == a + "|" + b + "|" + n + ":" + p
  {
  }

  /** `a|b|n:p`, as in `bail|required|min:10`: the formatted descriptors joined by pipes. */
  lemma ThreeShape(a: string, b: string, n: string, p: string, s: string)
    requires Plain(a) && Plain(b) && Plain(n) && Plain(p)
    requires s == a + "|" + b + "|" + n + ":" + p
    ensures Parse(Piped(s)) == [Named(a, []), Named(b, []), Named(n, [p])]
  {
    var ds := [Named(a, []), Named(b, []), Named(n, [p])];
    PlainCanonical(a, []);
    PlainCanonical(b, []);
    PlainCanonical(n, [p]);
    PipedRoundTrip(ds);
    ThreeFormats(a, b, n, p);
    ThreeJoin(a, b, n + ":" + p);
    Regroup(a, b, n, p);
    assert JoinPipes(FormatTexts(ds)) == s;
  }

  /** A string entry whose tokens are known, and which starts with a character `trim`
      keeps, contributes the descriptor of those tokens. */
  lemma TextDescribes(s: string, tokens: seq<string>)
    requires ParamTokens(s) == tokens
    requires s != [] && !IsWhitespace(s[0])
    ensures Contribution(Text(s)) == [Named(tokens[0], tokens[1..])]
  {
    assert !IsBlank(s);
    var d := Describe(Text(s));
    assert d.Tokens() == tokens;
    assert d.name == d.Tokens()[0] && d.params == d.Tokens()[1..];
  }

  /** The tokens of a string split into two known pieces: each piece, trimmed. */
  lemma TwoTokens(s: string, x0: string, x1: string, t0: string, t1: string)
    requires Split(s, ParamDelims) == [x0, x1]
    requires Trim(x0) == t0 && Trim(x1) == t1
    ensures ParamTokens(s) == [t0, t1]
  {
    var ts := ParamTokens(s);
    assert |ts| == 2;
    assert ts[0] == t0 && ts[1] == t1;
    ListOfTwo(ts, t0, t1);
  }

  lemma ListOfTwo(ts: seq<string>, a: string, b: string)
    requires |ts| == 2 && ts[0] == a && ts[1] == b
    ensures ts == [a, b]
  {
  }

  lemma ListOfThree(ts: seq<string>, a: string, b: string, c: string)
    requires |ts| == 3 && ts[0] == a && ts[1] == b && ts[2] == c
    ensures ts == [a, b, c]
  {
  }

  /** The tokens of a string split into three known pieces: each piece, trimmed. */
  lemma ThreeTokens(s: string, x0: string, x1: string, x2: string, t0: string, t1: string, t2: string)
    requires Split(s, ParamDelims) == [x0, x1, x2]
    requires Trim(x0) == t0 && Trim(x1) == t1 && Trim(x2) == t2
    ensures ParamTokens(s) == [t0, t1, t2]
  {
    var ts := ParamTokens(s);
    assert |ts| == 3;
    assert ts[0] == t0 && ts[1] == t1 && ts[2] == t2;
    ListOfThree(ts, t0, t1, t2);
  }

  lemma BlankTrimsEmpty()
    ensures Trim(" ") == ""
  {
    assert IsBlank(" ") by {
      assert forall i :: 0 <= i < |" "| ==> " "[i] == ' ';
    }
  }

  lemma BlankParamPieces(n: string, p: string)
    requires Plain(n) && Plain(p)
    ensures Split(n + ":" + " " + "," + p, ParamDelims) == [n, " ", p]
  {
    assert Weave([n, " ", p], [":", ","]) == n + ":" + " " + "," + p;
    SplitWeave([n, " ", p], [":", ","], ParamDelims);
  }

  lemma BlankParamTokens(n: string, p: string)
    requires Plain(n) && Plain(p)
    ensures ParamTokens(n + ":" + " " + "," + p) == [n, "", p]
  {
    BlankParamPieces(n, p);
    TrimTrimmed(n);
    TrimTrimmed(p);
    BlankTrimsEmpty();
    ThreeTokens(n + ":" + " " + "," + p, n, " ", p, n, "", p);
  }

  /** Only whole entries are dropped: in `n: ,p` the blank between ':' and ',' is not
      part of a delimiter run, so it survives, trimmed, as an empty parameter. */
  lemma BlankParam(n: string, p: string)
    requires Plain(n) && Plain(p)
    ensures Contribution(Text(n + ":" + " " + "," + p)) == [Named(n, ["", p])]
  {
    var text := n + ":" + " " + "," + p;
    BlankParamTokens(n, p);
    assert text[0] == n[0];
    TextDescribes(text, [n, "", p]);
    assert [n, "", p][1..] == ["", p];
  }

  lemma LeadingColonTokens(p: string)
    requires Plain(p)
    ensures ParamTokens(":" + p) == ["", p]
  {
    assert Weave(["", p], [":"]) == ":" + p;
    SplitWeave(["", p], [":"], ParamDelims);
    TrimTrimmed(p);
    assert Trim("") == "";
    TwoTokens(":" + p, "", p, "", p);
  }

  /** A leading ':' leaves an empty rule name. */
  lemma LeadingColon(p: string)
    requires Plain(p)
    ensures Contribution(Text(":" + p)) == [Named("", [p])]
  {
    LeadingColonTokens(p);
    assert (":" + p)[0] == ':';
    TextDescribes(":" + p, ["", p]);
    assert ["", p][1..] == [p];
  }

  /** A rule string without a pipe is one entry. */
  lemma OneEntryShape(s: string, d: Descriptor)
    requires Avoids(s, Pipe) && Contribution(Text(s)) == [d]
    ensures Parse(Piped(s)) == [d]
  {
    SplitWeave([s], [], Pipe);
    assert Texts([s]) == [Text(s)] + [];
    ParseEntriesCons(Text(s), []);
  }

  /** `n: ,p` on its own, as a rule string. */
  lemma BlankParamShape(n: string, p: string, s: string)
    requires Plain(n) && Plain(p)
    requires s == n + ":" + " " + "," + p
    ensures Parse(Piped(s)) == [Named(n, ["", p])]
  {
    BlankParam(n, p);
    BlankParamPipeFree(n, p, s);
    OneEntryShape(s, Named(n, ["", p]));
  }

  lemma BlankParamPipeFree(n: string, p: string, s: string)
    requires Plain(n) && Plain(p)
    requires s == n + ":" + " " + "," + p
    ensures Avoids(s, Pipe)
  {
    WeaveAvoids([n, " ", p], [":", ","], Pipe);
    assert Weave([n, " ", p], [":", ","]) == s;
  }

  lemma ParseBlankParam()
    ensures Parse(Piped("min: ,5")) == [Named("min", ["", "5"])]
  {
    PlainMin();
    BlankParamShape("min", "5", "min: ,5");
  }

  // ---------------------------------------------------------------------------
  // The parser tests
  // ---------------------------------------------------------------------------

  lemma PlainRequired() ensures Plain("required") {}
  lemma PlainEmail() ensures Plain("email") {}
  lemma PlainMaxMin() ensures Plain("max_min") {}
  lemma PlainNumbers() ensures Plain("50") && Plain("10") && Plain("5") {}
  lemma PlainBail() ensures Plain("bail") {}
  lemma PlainMin() ensures Plain("min") {}
  lemma PlainAbc() ensures Plain("abcdefghi") {}

  lemma PlainLiterals()
    ensures Plain("required") && Plain("email") && Plain("max_min") && Plain("50") && Plain("10")
    ensures Plain("bail") && Plain("min") && Plain("abcdefghi")
  {
    PlainRequired();
    PlainEmail();
    PlainMaxMin();
    PlainNumbers();
    PlainBail();
    PlainMin();
    PlainAbc();
  }

  lemma ParseRequiredEmail()
    ensures Parse(Piped("required|email")) == [Named("required", []), Named("email", [])]
  {
    PlainLiterals();
    TwoNamesShape("required", "email");
    assert "required" + "|" + "email" == "required|email";
  }

  lemma ParseStrayPipes()
    ensures Parse(Piped("|required| |email|")) == [Named("required", []), Named("email", [])]
  {
    PlainLiterals();
    StrayPipesShape("required", "email");
    assert "|" + "required" + "| |" + "email" + "|" == "|required| |email|";
  }

  lemma ParseDoublePipeParams()
    ensures Parse(Piped("||required| |email|max_min:50,10"))
         == [Named("required", []), Named("email", []), Named("max_min", ["50", "10"])]
  {
    PlainRequired();
    PlainEmail();
    PlainMaxMin();
    PlainNumbers();
    DoublePipeLiteral();
    DoublePipeShape("required", "email", "max_min", "50", "10");
  }

  lemma DoublePipeLiteral()
    ensures "||" + "required" + "| |" + "email" + "|" + "max_min" + ":" + "50" + "," + "10"
         == "||required| |email|max_min:50,10"
  {
  }

  lemma ParseArray()
    ensures Parse(Entries([Text("required"), Text("email"), Text(""), Text(" "), Text("max_min:50,10")]))
         == [Named("required", []), Named("email", []), Named("max_min", ["50", "10"])]
  {
    PlainLiterals();
    ArrayShape("required", "email", "max_min", "50", "10", "max_min:50,10");
  }

  lemma ParseArrayWithRule(rule: CustomRule)
    ensures Parse(Entries([Text("required"), Text("email"), Text(""), Text(" "), Text("max_min:50,10"), Instance(rule)]))
         == [Named("required", []), Named("email", []), Named("max_min", ["50", "10"]), Custom(rule)]
  {
    PlainLiterals();
    ArrayWithRuleShape("required", "email", "max_min", "50", "10", "max_min:50,10", rule);
  }
}

/** The validator behaviours the repository's tests pin down: the run of a single
    field `test` under the default messages, with no aliases and no custom messages.
    The case-conversion helper is a parameter; the lemmas assume only what it does to
    the four rule names involved. */
module ValidatorScenarios {
  import opened Wrappers
  import opened Text
  import opened Values
  import opened RuleParser
  import opened RuleValidator
  import opened RuleError
  import opened Validator
  import opened ParserScenarios

  /** The default templates of `required` and `min`, cut at their placeholders. */
  const RequiredText := "The " + ":attribute" + " field is required."
  const MinText := "The " + ":attribute" + " field must have at least " + ":" + "min" + " characters."

  /** What studly-casing does to the rule names of the tests. */
  predicate StudlyNames(support: Support) {
    support.studly("bail") == "Bail" && support.studly("required") == "Required" &&
    support.studly("min") == "Min" && support.studly("abcdefghi") == "Abcdefghi"
  }

  /** The two templates the tests render. */
  predicate StandardTemplates(defaults: map<string, string>) {
    "required" in defaults && defaults["required"] == RequiredText &&
    "min" in defaults && defaults["min"] == MinText
  }

  lemma DefaultTemplates()
    ensures StandardTemplates(DefaultMessages)
  {
    RequiredDefault();
    MinDefault();
  }

  lemma RequiredDefault()
    ensures "required" in DefaultMessages && DefaultMessages["required"] == RequiredText
  {
    RequiredLiteral();
    assert DefaultMessages["required"] == "The :attribute field is required.";
  }

  lemma RequiredLiteral()
    ensures RequiredText == "The :attribute field is required."
  {
    assert "The " + ":attribute" == "The :attribute";
    assert "The :attribute" + " field is required." == "The :attribute field is required.";
  }

  lemma MinDefault()
    ensures "min" in DefaultMessages && DefaultMessages["min"] == MinText
  {
    MinLiteral();
  }

  lemma MinLiteral()
    ensures MinText == "The :attribute field must have at least :min characters."
  {
    assert "The " + ":attribute" == "The :attribute";
    assert "The :attribute" + " field must have at least " == "The :attribute field must have at least ";
    assert "The :attribute field must have at least " + ":" == "The :attribute field must have at least :";
    assert "The :attribute field must have at least :" + "min" == "The :attribute field must have at least :min";
    assert "The :attribute field must have at least :min" + " characters." == "The :attribute field must have at least :min characters.";
  }

  /** A validator built without aliases or custom messages. */
  predicate Bare(ctx: Context) {
    ctx.aliases == map[] && ctx.messages == map[]
  }

  /** A field name the renderer inserts as it is. */
  predicate FieldName(field: string) {
    Avoids(field, {':', '$'})
  }

  /** The setting of the tests: a bare validator with the standard templates, and a
      plain field name. */
  predicate TestSetting(ctx: Context, field: string) {
    Bare(ctx) && FieldName(field) && StudlyNames(ctx.support) && StandardTemplates(ctx.defaults)
  }

  // ---------------------------------------------------------------------------
  // Rendering the two templates
  // ---------------------------------------------------------------------------

  /** Text whose only ':' opens a placeholder that is not `:attribute`. */
  lemma OtherPlaceholderNoAttribute(x: string, w: string, y: string)
    requires Avoids(x, {':'}) && Avoids(w, {':'}) && Avoids(y, {':'})
    requires w != [] && LowerAscii(w[0]) != 'a'
    ensures NoAttribute(x + ":" + w + y)
  {
    var s := x + ":" + w + y;
    forall i | 0 <= i < |s|
      ensures !AttributeAt(s, i)
    {
      if i + 10 <= |s| {
        var t := s[i..i + 10];
        if i < |x| {
          assert t[0] == x[i];
        } else if i == |x| {
          assert t[1] == w[0];
          assert LowerAscii(t[0 + 1]) != "attribute"[0];
        } else if i < |x| + 1 + |w| {
          assert t[0] == w[i - |x| - 1];
        } else {
          assert t[0] == y[i - |x| - 1 - |w|];
        }
      }
    }
  }

  lemma RequiredMessage(field: string)
    ensures ReplaceAttribute(RequiredText, field) == "The " + field + " field is required."
  {
    var pre, post := "The ", " field is required.";
    NoColonNoAttribute(pre);
    NoColonNoAttribute(post);
    AttributeCaseInsensitive();
    ReplaceAttributeOnce(pre, ":attribute", post, field);
  }

  lemma Regroup(a: string, b: string, c: string, d: string, e: string, f: string)
    ensures a + b + c + d + e + f == a + b + (c + d + e + f)
  {
  }

  lemma MinAttribute(field: string)
    ensures ReplaceAttribute(MinText, field) == "The " + field + (" field must have at least " + ":" + "min" + " characters.")
  {
    var x, w, y := " field must have at least ", "min", " characters.";
    Regroup("The ", ":attribute", x, ":", w, y);
    NoColonNoAttribute("The ");
    OtherPlaceholderNoAttribute(x, w, y);
    AttributeCaseInsensitive();
    ReplaceAttributeOnce("The ", ":attribute", x + ":" + w + y, field);
  }

  /** Filling `:min` in `The <field><x>:min<y>` with the first parameter. */
  lemma FillMin(field: string, x: string, y: string, p: string)
    requires Avoids(field, {':'}) && Avoids(x, {':'}) && y != [] && !IsWordChar(y[0])
    ensures ReplaceParams("The " + field + (x + ":" + "min" + y), [p]) == "The " + field + x + p + y
  {
    var head := "The " + field + x;
    assert Avoids(head, {':'}) by {
      AvoidsConcat("The ", field, {':'});
      AvoidsConcat("The " + field, x, {':'});
    }
    AvoidsColonNoPlaceholder(head);
    var m := head + ":" + "min" + y;
    assert "The " + field + (x + ":" + "min" + y) == m;
    ReplaceFirstShape(head, "min", y, p);
    assert ReplaceParams(m, [p]) == ReplaceParams(ReplaceFirst(m, p), []);
  }

  /** The `min` message names the field and the bound. */
  lemma MinMessage(field: string, p: string)
    requires Avoids(field, {':'})
    ensures ReplaceParams(ReplaceAttribute(MinText, field), [p]) == "The " + field + " field must have at least " + p + " characters."
  {
    MinAttribute(field);
    FillMin(field, " field must have at least ", " characters.", p);
  }

  /** `getErrorMessage` for `required`, with no alias and no custom message. */
  lemma RequiredRenders(support: Support, defaults: map<string, string>, field: string)
    requires StandardTemplates(defaults) && FieldName(field)
    ensures Literal(AttributeName(field, ""))
    ensures GetErrorMessage(support, defaults, Named("required", []), field, "", map[]) == Success("The " + field + " field is required.")
  {
    RequiredMessage(field);
  }

  /** `getErrorMessage` for `min:p`, with no alias and no custom message. */
  lemma MinRenders(support: Support, defaults: map<string, string>, field: string, p: string)
    requires StandardTemplates(defaults) && FieldName(field) && Literal(p)
    ensures Literal(AttributeName(field, "")) && Named("min", [p]).Args() == [p]
    ensures GetErrorMessage(support, defaults, Named("min", [p]), field, "", map[]) ==
      Success("The " + field + " field must have at least " + p + " characters.")
  {
    MinMessage(field, p);
  }

  /** The `required` message of the repository's tests, from the default table. */
  lemma RequiredExample(support: Support)
    ensures Literal("test")
    ensures GetErrorMessage(support, DefaultMessages, Named("required", []), "test", "", map[]) == Success("The test field is required.")
  {
    DefaultTemplates();
    TestField();
    RequiredRenders(support, DefaultMessages, "test");
    TestRequiredMessage();
  }

  /** The `min:10` message of the repository's tests, from the default table. */
  lemma MinExample(support: Support)
    ensures Literal("test") && Literal("10")
    ensures GetErrorMessage(support, DefaultMessages, Named("min", ["10"]), "test", "", map[]) ==
      Success("The test field must have at least 10 characters.")
  {
    DefaultTemplates();
    TestField();
    MinRenders(support, DefaultMessages, "test", "10");
    TestMinMessage();
  }

  // ---------------------------------------------------------------------------
  // One step per rule
  // ---------------------------------------------------------------------------

  /** Without aliases or custom messages a field is named by itself and every
      rule uses its default template. */
  lemma BareField(ctx: Context, field: string)
    requires Bare(ctx) && FieldName(field)
    ensures AliasOf(ctx, field) == "" && OverridesOf(ctx, field) == map[]
    ensures AttributeName(field, AliasOf(ctx, field)) == field && Literal(field) && Avoids(field, {':'})
  {
  }

  lemma BareRenderable(ctx: Context, field: string, d: Descriptor)
    requires Bare(ctx) && FieldName(field)
    requires forall k :: 0 <= k < |d.Args()| ==> Avoids(d.Args()[k], {'$'})
    ensures Renderable(ctx, field, d)
  {
    BareField(ctx, field);
  }

  /** `required`: fails exactly on a missing, null or empty value. */
  lemma RequiredStep(ctx: Context, field: string)
    requires TestSetting(ctx, field)
    ensures Renderable(ctx, field, Named("required", []))
    ensures StepOf(ctx, field, Named("required", [])) ==
      Step(false, Success(ValidateRequired(ctx.data, field)), Success("The " + field + " field is required."))
  {
    var d := Named("required", []);
    BareRenderable(ctx, field, d);
    assert !IsBailMarker(d) by {
      TrimTrimmed("required");
    }
    Suffixes();
    BuiltInVerdict(ctx, field, "required", [], Required);
    assert Message(ctx, field, d) == Success("The " + field + " field is required.") by {
      BareField(ctx, field);
      RequiredRenders(ctx.support, ctx.defaults, field);
    }
  }

  /** `min:p` on a value with a length, where `p` is the numeral of `n`. */
  lemma MinStep(ctx: Context, field: string, p: string, n: int)
    requires TestSetting(ctx, field)
    requires HasLength(Get(ctx.data, field))
    requires p == Decimal(n) && Literal(p)
    ensures Renderable(ctx, field, Named("min", [p]))
    ensures StepOf(ctx, field, Named("min", [p])) ==
      Step(false, Success(LengthOf(Get(ctx.data, field)) >= n), Success("The " + field + " field must have at least " + p + " characters."))
  {
    var d := Named("min", [p]);
    BareRenderable(ctx, field, d);
    assert !IsBailMarker(d) by {
      TrimTrimmed("min");
    }
    Suffixes();
    BuiltInVerdict(ctx, field, "min", [p], Min);
    assert ParseInt(p) == Some(n) by {
      ParseIntDecimal(n, "");
      assert p + "" == p;
    }
    assert Message(ctx, field, d) == Success("The " + field + " field must have at least " + p + " characters.") by {
      BareField(ctx, field);
      MinRenders(ctx.support, ctx.defaults, field, p);
    }
  }

  /** The verdict of a named rule is that of the built-in its studly-cased name selects. */
  lemma BuiltInVerdict(ctx: Context, field: string, name: string, params: seq<string>, b: BuiltIn)
    requires BuiltInOf(ctx.support.studly(name)) == Some(b)
    ensures b == Bail ==> Verdict(ctx, field, Named(name, params)) == Success(true)
    ensures b == Required ==> Verdict(ctx, field, Named(name, params)) == Success(ValidateRequired(ctx.data, field))
    ensures b == Min ==> Verdict(ctx, field, Named(name, params)) == ValidateMin(ctx.data, field, params)
  {
  }

  lemma UnknownVerdict(ctx: Context, field: string, name: string, params: seq<string>)
    requires BuiltInOf(ctx.support.studly(name)) == None
    ensures Verdict(ctx, field, Named(name, params)) == Failure(UnknownRule(name))
  {
  }

  /** The validators the studly-cased test rule names select. */
  lemma Suffixes()
    ensures BuiltInOf("Bail") == Some(Bail) && BuiltInOf("Required") == Some(Required)
    ensures BuiltInOf("Min") == Some(Min) && BuiltInOf("Abcdefghi") == None
  {
  }

  /** `bail` marks the field and passes. */
  lemma BailStep(ctx: Context, field: string)
    requires Bare(ctx) && FieldName(field) && StudlyNames(ctx.support)
    ensures Renderable(ctx, field, Named("bail", []))
    ensures StepOf(ctx, field, Named("bail", [])).marker
    ensures StepOf(ctx, field, Named("bail", [])).verdict == Success(true)
  {
    var d := Named("bail", []);
    BareRenderable(ctx, field, d);
    assert IsBailMarker(d) by {
      TrimTrimmed("bail");
    }
    Suffixes();
    BuiltInVerdict(ctx, field, "bail", [], Bail);
  }

  /** A rule with no validator throws. */
  lemma UnknownStep(ctx: Context, field: string)
    requires Bare(ctx) && FieldName(field) && StudlyNames(ctx.support)
    ensures Renderable(ctx, field, Named("abcdefghi", ["10"]))
    ensures StepOf(ctx, field, Named("abcdefghi", ["10"])).verdict == Failure(UnknownRule("abcdefghi"))
  {
    var d := Named("abcdefghi", ["10"]);
    assert Avoids("10", {'$'});
    BareRenderable(ctx, field, d);
    Suffixes();
    UnknownVerdict(ctx, field, "abcdefghi", ["10"]);
  }

  // ---------------------------------------------------------------------------
  // The loop of `fieldValidate` over a few steps
  // ---------------------------------------------------------------------------

  lemma WalkOnePass(s: Step)
    requires s.verdict == Success(true)
    ensures Walk([s], false) == Success([])
  {
    WalkCons(s, [], false);
  }

  lemma WalkOneFail(s: Step)
    requires !s.marker && s.verdict == Success(false) && s.message.Success?
    ensures Walk([s], false) == Success([s.message.value])
  {
    WalkCons(s, [], false);
    assert [s.message.value] + [] == [s.message.value];
  }

  /** A throw in the second step ends the field, whatever the first step did. */
  lemma WalkThenThrow(s1: Step, s2: Step)
    requires !s1.marker && s1.verdict.Success? && (!s1.verdict.value ==> s1.message.Success?)
    requires s2.verdict.Failure?
    ensures Walk([s1, s2], false) == Failure(s2.verdict.error)
  {
    assert [s1, s2] == [s1] + [s2];
    WalkCons(s1, [s2], false);
    WalkCons(s2, [], false);
    assert [s2] + [] == [s2];
  }

  /** What the field wrote before a throw in its second step: the first step's
      message, if it failed. */
  lemma PushesThenThrow(s1: Step, s2: Step)
    requires !s1.marker && s1.verdict.Success? && (!s1.verdict.value ==> s1.message.Success?)
    requires s2.verdict.Failure?
    ensures s1.verdict.value ==> Pushes([s1, s2], false) == Trail([], false)
    ensures !s1.verdict.value ==> Pushes([s1, s2], false) == Trail([s1.message.value], true)
  {
    assert [s1, s2] == [s1] + [s2];
    PushesCons(s1, [s2], false);
    PushesCons(s2, [], false);
    assert [s2] + [] == [s2];
    if !s1.verdict.value {
      assert [s1.message.value] + [] == [s1.message.value];
    }
  }

  lemma WalkTwoFails(s1: Step, s2: Step)
    requires !s1.marker && s1.verdict == Success(false) && s1.message.Success?
    requires !s2.marker && s2.verdict == Success(false) && s2.message.Success?
    ensures Walk([s1, s2], false) == Success([s1.message.value, s2.message.value])
  {
    assert [s1, s2] == [s1] + [s2];
    WalkCons(s1, [s2], false);
    WalkOneFail(s2);
    assert [s1.message.value] + [s2.message.value] == [s1.message.value, s2.message.value];
  }

  /** After `bail`, the first failure is the last step run. */
  lemma WalkBailThenFail(s1: Step, s2: Step, s3: Step)
    requires s1.marker && s1.verdict == Success(true)
    requires s2.verdict == Success(false) && s2.message.Success?
    ensures Walk([s1, s2, s3], false) == Success([s2.message.value])
  {
    assert [s1, s2, s3] == [s1] + ([s2] + [s3]);
    WalkCons(s1, [s2] + [s3], false);
    WalkCons(s2, [s3], true);
  }

  lemma Steps1(ctx: Context, field: string, d: Descriptor)
    requires Renderable(ctx, field, d)
    ensures AllRenderable(ctx, field, [d])
    ensures Steps(ctx, field, [d]) == [StepOf(ctx, field, d)]
  {
    assert [d][1..] == [];
  }

  lemma Steps2(ctx: Context, field: string, d1: Descriptor, d2: Descriptor)
    requires Renderable(ctx, field, d1) && Renderable(ctx, field, d2)
    ensures AllRenderable(ctx, field, [d1, d2])
    ensures Steps(ctx, field, [d1, d2]) == [StepOf(ctx, field, d1), StepOf(ctx, field, d2)]
  {
    var ds := [d1, d2];
    AllRenderableEach(ctx, field, ds);
    StepAt(ctx, field, ds, 0);
    StepAt(ctx, field, ds, 1);
    Pair(Steps(ctx, field, ds));
  }

  lemma Steps3(ctx: Context, field: string, d1: Descriptor, d2: Descriptor, d3: Descriptor)
    requires Renderable(ctx, field, d1) && Renderable(ctx, field, d2) && Renderable(ctx, field, d3)
    ensures AllRenderable(ctx, field, [d1, d2, d3])
    ensures Steps(ctx, field, [d1, d2, d3]) == [StepOf(ctx, field, d1), StepOf(ctx, field, d2), StepOf(ctx, field, d3)]
  {
    var ds := [d1, d2, d3];
    AllRenderableEach(ctx, field, ds);
    StepAt(ctx, field, ds, 0);
    StepAt(ctx, field, ds, 1);
    StepAt(ctx, field, ds, 2);
    Triple(Steps(ctx, field, ds));
  }

  lemma Pair(ss: seq<Step>)
    requires |ss| == 2
    ensures ss == [ss[0], ss[1]]
  {
  }

  lemma Triple(ss: seq<Step>)
    requires |ss| == 3
    ensures ss == [ss[0], ss[1], ss[2]]
  {
  }

  // ---------------------------------------------------------------------------
  // `passes` over a single field
  // ---------------------------------------------------------------------------

  /** With one field, the store holds that field's messages, if any, and `passes`
      answers whether there are none; after a throw it keeps what the field wrote
      before the throw. */
  lemma SingleField(ctx: Context, field: string, spec: RuleSpec, r: Result<seq<string>, Fault>, t: Trail)
    requires AllRenderable(ctx, field, Parse(spec))
    requires FieldErrors(ctx, field, Parse(spec), false) == r
    requires FieldPushes(ctx, field, Parse(spec)) == t
    ensures SafeRules(ctx, [(field, spec)])
    ensures r.Failure? ==> Run(ctx, [(field, spec)]) == Failure(r.error) && RunPasses(ctx, [(field, spec)]) == Failure(r.error)
    ensures r.Success? ==> Run(ctx, [(field, spec)]) == Success(Push(map[], field, r.value))
    ensures r.Success? ==> RunPasses(ctx, [(field, spec)]) == Success(r.value == [])
    ensures Left(ctx, [(field, spec)]) == Record(map[], field, t)
  {
    var rules := [(field, spec)];
    assert rules[0] == (field, spec);
    var outs := Outcomes(ctx, rules);
    assert outs == [(field, r, t)];
    assert outs[1..] == [];
    if r.Success? {
      assert Gather(outs[1..], Push(map[], field, r.value)) == Success(Push(map[], field, r.value));
      assert Leave(outs[1..], Record(map[], field, t)) == Record(map[], field, t);
    }
  }

  lemma OneMessage(field: string, m: string)
    ensures Push(map[], field, [m]) == map[field := [m]]
    ensures Record(map[], field, Trail([m], true)) == map[field := [m]]
  {
    assert [] + [m] == [m];
  }

  lemma TwoMessages(field: string, m1: string, m2: string)
    ensures Push(map[], field, [m1, m2]) == map[field := [m1, m2]]
  {
    assert [] + [m1, m2] == [m1, m2];
  }

  // ---------------------------------------------------------------------------
  // The five validator tests, for any field name
  // ---------------------------------------------------------------------------

  /** An unknown rule throws, even after a failed rule pushed its message; that
      message stays in the store. */
  lemma UnknownRuleShape(ctx: Context, field: string, spec: RuleSpec)
    requires TestSetting(ctx, field)
    requires Parse(spec) == [Named("required", []), Named("abcdefghi", ["10"])]
    ensures SafeRules(ctx, [(field, spec)])
    ensures Run(ctx, [(field, spec)]) == Failure(UnknownRule("abcdefghi"))
    ensures RunPasses(ctx, [(field, spec)]) == Failure(UnknownRule("abcdefghi"))
    ensures ValidateRequired(ctx.data, field) ==> Left(ctx, [(field, spec)]) == map[]
    ensures !ValidateRequired(ctx.data, field) ==> Left(ctx, [(field, spec)]) == map[field := ["The " + field + " field is required."]]
  {
    var d1, d2 := Named("required", []), Named("abcdefghi", ["10"]);
    RequiredStep(ctx, field);
    UnknownStep(ctx, field);
    Steps2(ctx, field, d1, d2);
    var s1, s2 := StepOf(ctx, field, d1), StepOf(ctx, field, d2);
    WalkThenThrow(s1, s2);
    PushesThenThrow(s1, s2);
    var t := if s1.verdict.value then Trail([], false) else Trail([s1.message.value], true);
    SingleField(ctx, field, spec, Failure(UnknownRule("abcdefghi")), t);
    if !ValidateRequired(ctx.data, field) {
      OneMessage(field, "The " + field + " field is required.");
    }
  }

  /** `required` alone: no message when the value is present, its message otherwise. */
  lemma RequiredOnlyShape(ctx: Context, field: string, spec: RuleSpec)
    requires TestSetting(ctx, field)
    requires Parse(spec) == [Named("required", [])]
    ensures SafeRules(ctx, [(field, spec)])
    ensures ValidateRequired(ctx.data, field) ==>
      Run(ctx, [(field, spec)]) == Success(map[]) && RunPasses(ctx, [(field, spec)]) == Success(true)
    ensures !ValidateRequired(ctx.data, field) ==>
      Run(ctx, [(field, spec)]) == Success(map[field := ["The " + field + " field is required."]]) &&
      RunPasses(ctx, [(field, spec)]) == Success(false)
  {
    var d := Named("required", []);
    RequiredStep(ctx, field);
    Steps1(ctx, field, d);
    var st := StepOf(ctx, field, d);
    if ValidateRequired(ctx.data, field) {
      WalkOnePass(st);
      SingleField(ctx, field, spec, Success([]), FieldPushes(ctx, field, Parse(spec)));
    } else {
      WalkOneFail(st);
      SingleField(ctx, field, spec, Success(["The " + field + " field is required."]), FieldPushes(ctx, field, Parse(spec)));
      OneMessage(field, "The " + field + " field is required.");
    }
  }

  /** `bail|required|min:p` on a value `required` rejects: only the first message,
      whatever `min:p` would have said. */
  lemma BailShape(ctx: Context, field: string, spec: RuleSpec, p: string)
    requires TestSetting(ctx, field)
    requires Literal(p) && !ValidateRequired(ctx.data, field)
    requires Parse(spec) == [Named("bail", []), Named("required", []), Named("min", [p])]
    ensures SafeRules(ctx, [(field, spec)])
    ensures Run(ctx, [(field, spec)]) == Success(map[field := ["The " + field + " field is required."]])
    ensures RunPasses(ctx, [(field, spec)]) == Success(false)
  {
    var m := "The " + field + " field is required.";
    BailSteps(ctx, field, Parse(spec), p);
    BailField(ctx, field, spec, m);
  }

  /** A field whose rules are a passing `bail`, a failing rule and a third: only the
      failing rule's message is stored. */
  lemma BailField(ctx: Context, field: string, spec: RuleSpec, m: string)
    requires AllRenderable(ctx, field, Parse(spec)) && |Parse(spec)| == 3
    requires var ss := Steps(ctx, field, Parse(spec));
      ss[0].marker && ss[0].verdict == Success(true) && ss[1].verdict == Success(false) && ss[1].message == Success(m)
    ensures SafeRules(ctx, [(field, spec)])
    ensures Run(ctx, [(field, spec)]) == Success(map[field := [m]])
    ensures RunPasses(ctx, [(field, spec)]) == Success(false)
  {
    BailWalk(ctx, field, Parse(spec), m);
    SingleField(ctx, field, spec, Success([m]), FieldPushes(ctx, field, Parse(spec)));
    OneMessage(field, m);
  }

  /** A field loop whose first step is a passing `bail` and whose second fails:
      only the second step's message. */
  lemma BailWalk(ctx: Context, field: string, ds: seq<Descriptor>, m: string)
    requires AllRenderable(ctx, field, ds) && |ds| == 3
    requires var ss := Steps(ctx, field, ds);
      ss[0].marker && ss[0].verdict == Success(true) && ss[1].verdict == Success(false) && ss[1].message == Success(m)
    ensures FieldErrors(ctx, field, ds, false) == Success([m])
  {
    var ss := Steps(ctx, field, ds);
    Triple(ss);
    WalkBailThenFail(ss[0], ss[1], ss[2]);
  }

  /** The steps of `bail|required|min:p` when `required` fails. */
  lemma BailSteps(ctx: Context, field: string, ds: seq<Descriptor>, p: string)
    requires TestSetting(ctx, field)
    requires Literal(p) && !ValidateRequired(ctx.data, field)
    requires ds == [Named("bail", []), Named("required", []), Named("min", [p])]
    ensures AllRenderable(ctx, field, ds) && |ds| == 3
    ensures var ss := Steps(ctx, field, ds);
      ss[0].marker && ss[0].verdict == Success(true) &&
      ss[1].verdict == Success(false) && ss[1].message == Success("The " + field + " field is required.")
  {
    var d1, d2, d3 := Named("bail", []), Named("required", []), Named("min", [p]);
    BareRenderable(ctx, field, d1);
    BareRenderable(ctx, field, d2);
    BareRenderable(ctx, field, d3);
    Steps3(ctx, field, d1, d2, d3);
    BailStep(ctx, field);
    RequiredStep(ctx, field);
    BailPrefix(Steps(ctx, field, [d1, d2, d3]), StepOf(ctx, field, d1), StepOf(ctx, field, d2), StepOf(ctx, field, d3),
               "The " + field + " field is required.");
  }

  /** The first two of three steps, read off the list. */
  lemma BailPrefix(ss: seq<Step>, a: Step, b: Step, c: Step, m: string)
    requires ss == [a, b, c]
    requires a.marker && a.verdict == Success(true) && b == Step(false, Success(false), Success(m))
    ensures ss[0].marker && ss[0].verdict == Success(true)
    ensures ss[1].verdict == Success(false) && ss[1].message == Success(m)
  {
  }

  /** `required|min:p` on a value both reject: both messages, in rule order. */
  lemma NoBailShape(ctx: Context, field: string, spec: RuleSpec, p: string, n: int)
    requires TestSetting(ctx, field)
    requires Literal(p) && p == Decimal(n)
    requires !ValidateRequired(ctx.data, field) && HasLength(Get(ctx.data, field)) && LengthOf(Get(ctx.data, field)) < n
    requires Parse(spec) == [Named("required", []), Named("min", [p])]
    ensures SafeRules(ctx, [(field, spec)])
    ensures Run(ctx, [(field, spec)]) == Success(map[field := ["The " + field + " field is required.",
                                                               "The " + field + " field must have at least " + p + " characters."]])
    ensures RunPasses(ctx, [(field, spec)]) == Success(false)
  {
    var d1, d2 := Named("required", []), Named("min", [p]);
    var m1, m2 := "The " + field + " field is required.", "The " + field + " field must have at least " + p + " characters.";
    RequiredStep(ctx, field);
    MinStep(ctx, field, p, n);
    Steps2(ctx, field, d1, d2);
    WalkTwoFails(StepOf(ctx, field, d1), StepOf(ctx, field, d2));
    SingleField(ctx, field, spec, Success([m1, m2]), FieldPushes(ctx, field, Parse(spec)));
    TwoMessages(field, m1, m2);
  }

  // ---------------------------------------------------------------------------
  // The five validator tests as written: field `test`, default messages
  // ---------------------------------------------------------------------------

  lemma TestField()
    ensures FieldName("test") && Literal("10") && Decimal(10) == "10"
  {
  }

  lemma ParseRequiredUnknown()
    ensures Parse(Piped("required|abcdefghi:10")) == [Named("required", []), Named("abcdefghi", ["10"])]
  {
    PlainLiterals();
    NameParamShape("required", "abcdefghi", "10", "required|abcdefghi:10");
  }

  lemma ParseRequired()
    ensures Parse(Piped("required")) == [Named("required", [])]
  {
    PlainLiterals();
    OneNameShape("required");
  }

  lemma ParseBailRequiredMin()
    ensures Parse(Piped("bail|required|min:10")) == [Named("bail", []), Named("required", []), Named("min", ["10"])]
  {
    PlainLiterals();
    ThreeShape("bail", "required", "min", "10", "bail|required|min:10");
  }

  lemma ParseRequiredMin()
    ensures Parse(Piped("required|min:10")) == [Named("required", []), Named("min", ["10"])]
  {
    PlainLiterals();
    NameParamShape("required", "min", "10", "required|min:10");
  }

  lemma TestRequiredMessage()
    ensures "The " + "test" + " field is required." == "The test field is required."
  {
    assert "The " + "test" == "The test";
  }

  lemma TestMinMessage()
    ensures "The " + "test" + " field must have at least " + "10" + " characters." == "The test field must have at least 10 characters."
  {
    assert "The " + "test" == "The test";
    assert "The test" + " field must have at least " == "The test field must have at least ";
    assert "The test field must have at least " + "10" == "The test field must have at least 10";
    assert "The test field must have at least 10" + " characters." == "The test field must have at least 10 characters.";
  }

  /** `{test: "required|abcdefghi:10"}` on `{}`: `passes()` throws, and the store
      keeps the `required` message pushed before the throw. */
  lemma UnknownRuleThrows(support: Support)
    requires StudlyNames(support)
    ensures var ctx := Context(support, DefaultMessages, map[], map[], map[]);
      var rules := [("test", Piped("required|abcdefghi:10"))];
      SafeRules(ctx, rules) && Run(ctx, rules) == Failure(UnknownRule("abcdefghi")) &&
      RunPasses(ctx, rules) == Failure(UnknownRule("abcdefghi")) &&
      Left(ctx, rules) == map["test" := ["The test field is required."]]
  {
    var ctx := Context(support, DefaultMessages, map[], map[], map[]);
    DefaultTemplates();
    TestField();
    TestRequiredMessage();
    ParseRequiredUnknown();
    UnknownRuleShape(ctx, "test", Piped("required|abcdefghi:10"));
  }

  /** `{test: "required"}` on `{}`: `fails()` is true and the store holds the message. */
  lemma RequiredFails(support: Support)
    requires StudlyNames(support)
    ensures var ctx := Context(support, DefaultMessages, map[], map[], map[]);
      var rules := [("test", Piped("required"))];
      SafeRules(ctx, rules) && RunFails(ctx, rules) == Success(true) &&
      Run(ctx, rules) == Success(map["test" := ["The test field is required."]])
  {
    var ctx := Context(support, DefaultMessages, map[], map[], map[]);
    DefaultTemplates();
    TestField();
    TestRequiredMessage();
    ParseRequired();
    RequiredOnlyShape(ctx, "test", Piped("required"));
  }

  /** `{test: "required"}` on `{test: "hello"}`: `passes()` is true and the store is empty. */
  lemma RequiredPasses(support: Support)
    requires StudlyNames(support)
    ensures var ctx := Context(support, DefaultMessages, map["test" := Str("hello")], map[], map[]);
      var rules := [("test", Piped("required"))];
      SafeRules(ctx, rules) && RunPasses(ctx, rules) == Success(true) && Run(ctx, rules) == Success(map[])
  {
    var ctx := Context(support, DefaultMessages, map["test" := Str("hello")], map[], map[]);
    DefaultTemplates();
    TestField();
    ParseRequired();
    assert ValidateRequired(ctx.data, "test");
    RequiredOnlyShape(ctx, "test", Piped("required"));
  }

  /** `{test: "bail|required|min:10"}` on `{test: ""}`: one message only. */
  lemma FieldBails(support: Support)
    requires StudlyNames(support)
    ensures var ctx := Context(support, DefaultMessages, map["test" := Str("")], map[], map[]);
      var rules := [("test", Piped("bail|required|min:10"))];
      SafeRules(ctx, rules) && RunPasses(ctx, rules) == Success(false) &&
      Run(ctx, rules) == Success(map["test" := ["The test field is required."]])
  {
    var ctx := Context(support, DefaultMessages, map["test" := Str("")], map[], map[]);
    DefaultTemplates();
    TestField();
    TestRequiredMessage();
    ParseBailRequiredMin();
    assert !ValidateRequired(ctx.data, "test");
    BailShape(ctx, "test", Piped("bail|required|min:10"), "10");
  }

  /** `{test: "required|min:10"}` on `{test: ""}`: both messages, in rule order. */
  lemma FieldDoesNotBail(support: Support)
    requires StudlyNames(support)
    ensures var ctx := Context(support, DefaultMessages, map["test" := Str("")], map[], map[]);
      var rules := [("test", Piped("required|min:10"))];
      SafeRules(ctx, rules) && RunPasses(ctx, rules) == Success(false) &&
      Run(ctx, rules) == Success(map["test" := ["The test field is required.", "The test field must have at least 10 characters."]])
  {
    var ctx := Context(support, DefaultMessages, map["test" := Str("")], map[], map[]);
    DefaultTemplates();
    TestField();
    TestRequiredMessage();
    TestMinMessage();
    ParseRequiredMin();
    assert !ValidateRequired(ctx.data, "test");
    assert LengthOf(Get(ctx.data, "test")) == 0;
    NoBailShape(ctx, "test", Piped("required|min:10"), "10", 10);
  }
}

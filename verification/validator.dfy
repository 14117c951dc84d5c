/** `Validator`: parses each field's rules, runs them in order with the `bail` early
    exit, renders a message for every failed rule and collects the messages per field.
    A thrown error aborts the run and is returned as a `Failure`. */
module Validator {
  import opened Wrappers
  import opened Text
  import opened Values
  import opened RuleParser
  import opened RuleValidator
  import opened RuleError

  /** Everything a validation reads besides the rules: the external helpers, the
      default message table in force, the data, the field aliases and the per-field
      message overrides. */
  datatype Context = Context(
    support: Support,
    defaults: map<string, string>,
    data: Data,
    aliases: map<string, string>,
    messages: map<string, map<string, string>>)

  /** The rule map in its iteration order: field name and its specification. */
  type Rules = seq<(string, RuleSpec)>

  /** The error store: field name to the messages of its failed rules. */
  type Store = map<string, seq<string>>

  /** `this.aliases[field]`; a missing alias reads as `undefined`, which the message
      renderer treats like the empty string. */
  function AliasOf(ctx: Context, field: string): string {
    if field in ctx.aliases then ctx.aliases[field] else ""
  }

  /** `this.messages[field]`; a missing entry has no overrides. */
  function OverridesOf(ctx: Context, field: string): map<string, string> {
    if field in ctx.messages then ctx.messages[field] else map[]
  }

  /** `'bail' === rule.trim()` for a named rule; a rule object is never the marker. */
  predicate IsBailMarker(d: Descriptor) {
    d.Named? && Trim(d.name) == "bail"
  }

  /** Whether one descriptor passes: `rule.check(data, field)` for a rule object,
      `passesRule(rule, field, ...params)` for a named rule. */
  function Verdict(ctx: Context, field: string, d: Descriptor): (r: Result<bool, Fault>)
    ensures d.Custom? ==> r == Success(d.rule.check(ctx.data, field))
    ensures d.Named? ==> r == PassesRule(ctx.support, ctx.data, d.name, field, d.params)
    ensures r.Failure? ==> d.Named? && (r.error.IsConfiguration() || r.error == NoLength)
  {
    match d
    case Custom(rule) => Success(rule.check(ctx.data, field))
    case Named(name, params) => PassesRule(ctx.support, ctx.data, name, field, params)
  }

  /** The message of a failed descriptor can be rendered without `$` patterns. */
  predicate Renderable(ctx: Context, field: string, d: Descriptor) {
    Literal(AttributeName(field, AliasOf(ctx, field))) &&
    forall k :: 0 <= k < |d.Args()| ==> Literal(d.Args()[k])
  }

  /** Every descriptor of the list is `Renderable`. */
  predicate AllRenderable(ctx: Context, field: string, ds: seq<Descriptor>)
    decreases |ds|
  {
    ds == [] || (Renderable(ctx, field, ds[0]) && AllRenderable(ctx, field, ds[1..]))
  }

  /** `AllRenderable` is the element-wise condition. */
  lemma {:induction false} AllRenderableEach(ctx: Context, field: string, ds: seq<Descriptor>)
    ensures AllRenderable(ctx, field, ds) <==> forall k :: 0 <= k < |ds| ==> Renderable(ctx, field, ds[k])
    decreases |ds|
  {
    if ds != [] {
      AllRenderableEach(ctx, field, ds[1..]);
      assert forall k :: 0 < k < |ds| ==> ds[1..][k - 1] == ds[k];
    }
  }

  /** `pushError`'s message: `getErrorMessage(field, aliases[field], messages[field])`. */
  function Message(ctx: Context, field: string, d: Descriptor): (r: Result<string, Fault>)
    requires Renderable(ctx, field, d)
    ensures r.Failure? <==> Template(ctx.support, ctx.defaults, d, OverridesOf(ctx, field)).None?
  {
    GetErrorMessage(ctx.support, ctx.defaults, d, field, AliasOf(ctx, field), OverridesOf(ctx, field))
  }

  /** What the loop of `fieldValidate` needs to know about one descriptor: whether
      it is the `bail` marker, its verdict, and the message it pushes on failure. */
  datatype Step = Step(marker: bool, verdict: Result<bool, Fault>, message: Result<string, Fault>)

  function StepOf(ctx: Context, field: string, d: Descriptor): (s: Step)
    requires Renderable(ctx, field, d)
  {
    Step(IsBailMarker(d), Verdict(ctx, field, d), Message(ctx, field, d))
  }

  /** The steps of a descriptor list, one per descriptor. */
  function Steps(ctx: Context, field: string, ds: seq<Descriptor>): (ss: seq<Step>)
    requires AllRenderable(ctx, field, ds)
    ensures |ss| == |ds|
    decreases |ds|
  {
    if ds == [] then [] else [StepOf(ctx, field, ds[0])] + Steps(ctx, field, ds[1..])
  }

  /** The loop of `fieldValidate` over the steps, given whether a `bail` marker has
      been seen: every failure pushes its message, and a failure once the marker has
      been seen is the last step run. A throw ends the loop. */
  function Walk(ss: seq<Step>, shouldBail: bool): (r: Result<seq<string>, Fault>)
    ensures r.Success? ==> |r.value| <= |ss|
    ensures r.Success? && shouldBail ==> |r.value| <= 1
    decreases |ss|
  {
    if ss == [] then Success([])
    else
      var bail := shouldBail || ss[0].marker;
      var pass :- ss[0].verdict;
      if pass then Walk(ss[1..], bail)
      else
        var msg :- ss[0].message;
        if bail then Success([msg])
        else
          var rest :- Walk(ss[1..], bail);
          Success([msg] + rest)
  }

  /** The messages `fieldValidate` pushes for the descriptors `ds`. */
  function FieldErrors(ctx: Context, field: string, ds: seq<Descriptor>, shouldBail: bool): (r: Result<seq<string>, Fault>)
    requires AllRenderable(ctx, field, ds)
    ensures r.Success? ==> |r.value| <= |ds|
    ensures r.Success? && shouldBail ==> |r.value| <= 1
  {
    Walk(Steps(ctx, field, ds), shouldBail)
  }

  /** `prefix` put in front of a successful result. */
  function Then(prefix: seq<string>, r: Result<seq<string>, Fault>): (t: Result<seq<string>, Fault>)
    ensures t.Failure? <==> r.Failure?
    ensures t.Failure? ==> t.error == r.error
    ensures t.Success? ==> t.value == prefix + r.value
    ensures prefix == [] ==> t == r
  {
    match r
    case Success(m) =>
      assert prefix == [] ==> prefix + m == m;
      Success(prefix + m)
    case Failure(e) => Failure(e)
  }

  /** What the loop of `fieldValidate` writes into the store, whether it ends
      normally or by a throw: the messages it pushed, and whether it entered
      `pushError` at all (which creates the field's array before rendering). */
  datatype Trail = Trail(pushed: seq<string>, reached: bool)

  /** The writes of the loop over the steps: like `Walk`, but a throw keeps what was
      pushed before it, and a throw while rendering leaves the array created. */
  function Pushes(ss: seq<Step>, shouldBail: bool): (t: Trail)
    ensures t.pushed != [] ==> t.reached
    ensures |t.pushed| <= |ss|
    decreases |ss|
  {
    if ss == [] then Trail([], false)
    else
      var bail := shouldBail || ss[0].marker;
      if ss[0].verdict.Failure? then Trail([], false)
      else if ss[0].verdict.value then Pushes(ss[1..], bail)
      else if ss[0].message.Failure? then Trail([], true)
      else if bail then Trail([ss[0].message.value], true)
      else
        var rest := Pushes(ss[1..], bail);
        Trail([ss[0].message.value] + rest.pushed, true)
  }

  /** The writes of the descriptors `ds`. */
  function FieldPushes(ctx: Context, field: string, ds: seq<Descriptor>): Trail
    requires AllRenderable(ctx, field, ds)
  {
    Pushes(Steps(ctx, field, ds), false)
  }

  /** `prefix` already pushed in front of trail `t`. */
  function Extend(prefix: seq<string>, t: Trail): (e: Trail)
    ensures e.pushed == prefix + t.pushed
    ensures e.reached <==> prefix != [] || t.reached
  {
    Trail(prefix + t.pushed, prefix != [] || t.reached)
  }

  /** The body of `fieldValidate`'s loop up to the verdict: a rule object is asked
      directly; a named rule may set the `bail` flag and goes through `passesRule`. */
  method CheckRule(ctx: Context, field: string, d: Descriptor, shouldBail: bool) returns (verdict: Result<bool, Fault>, bail: bool)
    ensures verdict == Verdict(ctx, field, d)
    ensures bail == (shouldBail || IsBailMarker(d))
  {
    bail := shouldBail;
    match d {
      case Custom(rule) =>
        verdict := Success(rule.check(ctx.data, field));
      case Named(name, params) =>
        if Trim(name) == "bail" {
          bail := true;
        }
        verdict := PassesRule(ctx.support, ctx.data, name, field, params);
    }
  }

  /** `fieldValidate(field, rules)` up to the store: parse, then run the loop over
      the descriptors, stopping once a failure follows a `bail` marker. */
  method ValidateField(ctx: Context, field: string, spec: RuleSpec) returns (r: Result<seq<string>, Fault>, trail: Trail)
    requires AllRenderable(ctx, field, Parse(spec))
    ensures r == FieldErrors(ctx, field, Parse(spec), false)
    ensures trail == FieldPushes(ctx, field, Parse(spec))
  {
    var rules := Parse(spec);
    r, trail := ValidateRules(ctx, field, rules);
  }

  /** The loop of `fieldValidate` over the parsed descriptors: the messages it
      reports, and what it has written when it ends, normally or by a throw. */
  method ValidateRules(ctx: Context, field: string, rules: seq<Descriptor>) returns (r: Result<seq<string>, Fault>, trail: Trail)
    requires AllRenderable(ctx, field, rules)
    ensures r == FieldErrors(ctx, field, rules, false)
    ensures trail == FieldPushes(ctx, field, rules)
  {
    ghost var ss := Steps(ctx, field, rules);
    LoopStart(ss);
    var shouldBail := false;
    var bailed := false;
    var errors: seq<string> := [];
    var i := 0;
    while i < |rules| && !bailed
      invariant i <= |rules|
      invariant LoopInv(ss, i, errors, shouldBail, bailed)
      decreases |rules| - i
    {
      var d := rules[i];
      StepAt(ctx, field, rules, i);
      var verdict;
      ghost var before := shouldBail;
      verdict, shouldBail := CheckRule(ctx, field, d, shouldBail);
      if verdict.Failure? {
        LoopThrow(ss, i, errors, before);
        return Failure(verdict.error), Trail(errors, errors != []);
      }
      if verdict.value {
        LoopPass(ss, i, errors, before);
      } else {
        var msg := Message(ctx, field, d);
        if msg.Failure? {
          LoopRenderThrow(ss, i, errors, before);
          return Failure(msg.error), Trail(errors, true);
        }
        LoopFail(ss, i, errors, before);
        errors := errors + [msg.value];
        bailed := shouldBail;
      }
      i := i + 1;
    }
    LoopEnd(ss, i, errors, shouldBail, bailed);
    return Success(errors), Trail(errors, errors != []);
  }

  /** The invariant of `fieldValidate`'s loop after `i` steps: the messages pushed so
      far, followed by what the remaining steps do, make up the whole field. */
  ghost predicate LoopInv(ss: seq<Step>, i: nat, errors: seq<string>, shouldBail: bool, bailed: bool) {
    i <= |ss| && (bailed ==> shouldBail) &&
    Walk(ss, false) == Then(errors, if bailed then Success([]) else Walk(ss[i..], shouldBail)) &&
    Pushes(ss, false) == Extend(errors, if bailed then Trail([], false) else Pushes(ss[i..], shouldBail))
  }

  lemma LoopStart(ss: seq<Step>)
    ensures LoopInv(ss, 0, [], false, false)
  {
    assert ss[0..] == ss;
  }

  /** A passing step moves on, setting the flag at the `bail` marker. */
  lemma LoopPass(ss: seq<Step>, i: nat, errors: seq<string>, shouldBail: bool)
    requires LoopInv(ss, i, errors, shouldBail, false) && i < |ss|
    requires ss[i].verdict == Success(true)
    ensures LoopInv(ss, i + 1, errors, shouldBail || ss[i].marker, false)
  {
    assert ss[i..] == [ss[i]] + ss[i + 1..];
    WalkStep(errors, ss[i], ss[i + 1..], shouldBail, true, "");
    PushStep(errors, ss[i], ss[i + 1..], shouldBail, true, "");
  }

  /** A failing step pushes its message and ends the loop once the flag is set. */
  lemma LoopFail(ss: seq<Step>, i: nat, errors: seq<string>, shouldBail: bool)
    requires LoopInv(ss, i, errors, shouldBail, false) && i < |ss|
    requires ss[i].verdict == Success(false) && ss[i].message.Success?
    ensures LoopInv(ss, i + 1, errors + [ss[i].message.value], shouldBail || ss[i].marker, shouldBail || ss[i].marker)
  {
    assert ss[i..] == [ss[i]] + ss[i + 1..];
    WalkStep(errors, ss[i], ss[i + 1..], shouldBail, false, ss[i].message.value);
    PushStep(errors, ss[i], ss[i + 1..], shouldBail, false, ss[i].message.value);
  }

  /** A step whose rule throws ends the field with what has been pushed so far. */
  lemma LoopThrow(ss: seq<Step>, i: nat, errors: seq<string>, shouldBail: bool)
    requires LoopInv(ss, i, errors, shouldBail, false) && i < |ss|
    requires ss[i].verdict.Failure?
    ensures Walk(ss, false) == Failure(ss[i].verdict.error)
    ensures Pushes(ss, false) == Trail(errors, errors != [])
  {
    assert ss[i..] == [ss[i]] + ss[i + 1..];
    WalkCons(ss[i], ss[i + 1..], shouldBail);
    PushesCons(ss[i], ss[i + 1..], shouldBail);
    assert errors + [] == errors;
  }

  /** A failing step whose message throws ends the field with its array created. */
  lemma LoopRenderThrow(ss: seq<Step>, i: nat, errors: seq<string>, shouldBail: bool)
    requires LoopInv(ss, i, errors, shouldBail, false) && i < |ss|
    requires ss[i].verdict == Success(false) && ss[i].message.Failure?
    ensures Walk(ss, false) == Failure(ss[i].message.error)
    ensures Pushes(ss, false) == Trail(errors, true)
  {
    assert ss[i..] == [ss[i]] + ss[i + 1..];
    WalkCons(ss[i], ss[i + 1..], shouldBail);
    PushesCons(ss[i], ss[i + 1..], shouldBail);
    assert errors + [] == errors;
  }

  /** When the loop runs out of steps or bails, the field ends normally. */
  lemma LoopEnd(ss: seq<Step>, i: nat, errors: seq<string>, shouldBail: bool, bailed: bool)
    requires LoopInv(ss, i, errors, shouldBail, bailed) && (i == |ss| || bailed)
    ensures Walk(ss, false) == Success(errors) && Pushes(ss, false) == Trail(errors, errors != [])
  {
    if !bailed {
      assert ss[i..] == [];
    }
    assert errors + [] == errors;
  }

  lemma StepAt(ctx: Context, field: string, ds: seq<Descriptor>, k: nat)
    requires AllRenderable(ctx, field, ds) && k < |ds|
    ensures Renderable(ctx, field, ds[k]) && Steps(ctx, field, ds)[k] == StepOf(ctx, field, ds[k])
  {
    StepsEach(ctx, field, ds);
  }

  /** The `k`-th step is that of the `k`-th descriptor. */
  lemma {:induction false} StepsEach(ctx: Context, field: string, ds: seq<Descriptor>)
    requires AllRenderable(ctx, field, ds)
    ensures forall k :: 0 <= k < |ds| ==> Renderable(ctx, field, ds[k]) && Steps(ctx, field, ds)[k] == StepOf(ctx, field, ds[k])
    decreases |ds|
  {
    if ds != [] {
      StepsEach(ctx, field, ds[1..]);
      var ss := Steps(ctx, field, ds);
      var rest := Steps(ctx, field, ds[1..]);
      assert ss == [StepOf(ctx, field, ds[0])] + rest;
      forall k | 0 <= k < |ds|
        ensures Renderable(ctx, field, ds[k]) && ss[k] == StepOf(ctx, field, ds[k])
      {
        if k > 0 {
          assert ds[1..][k - 1] == ds[k];
          assert ss[k] == rest[k - 1];
        }
      }
    }
  }

  /** One step of the loop, spelled out. */
  lemma WalkCons(s: Step, rest: seq<Step>, shouldBail: bool)
    ensures Walk([s] + rest, shouldBail) ==
      if s.verdict.Failure? then Failure(s.verdict.error)
      else if s.verdict.value then Walk(rest, shouldBail || s.marker)
      else if s.message.Failure? then Failure(s.message.error)
      else if shouldBail || s.marker then Success([s.message.value])
      else Then([s.message.value], Walk(rest, shouldBail || s.marker))
  {
    assert ([s] + rest)[0] == s && ([s] + rest)[1..] == rest;
  }

  /** One turn of `fieldValidate`'s loop on the accumulated messages: a pass moves
      on; a failure appends its message and ends the loop when `bail` has been seen. */
  lemma WalkStep(prefix: seq<string>, s: Step, rest: seq<Step>, shouldBail: bool, pass: bool, msg: string)
    requires s.verdict == Success(pass)
    requires !pass ==> s.message == Success(msg)
    ensures Then(prefix, Walk([s] + rest, shouldBail)) ==
      if pass then Then(prefix, Walk(rest, shouldBail || s.marker))
      else Then(prefix + [msg], if shouldBail || s.marker then Success([]) else Walk(rest, shouldBail || s.marker))
  {
    WalkCons(s, rest, shouldBail);
    if !pass {
      var tail: Result<seq<string>, Fault> := if shouldBail || s.marker then Success([]) else Walk(rest, shouldBail || s.marker);
      assert [msg] + [] == [msg];
      assert Walk([s] + rest, shouldBail) == Then([msg], tail);
      ThenThen(prefix, [msg], tail);
    }
  }

  /** Prefixes accumulate. */
  lemma ThenThen(p: seq<string>, q: seq<string>, r: Result<seq<string>, Fault>)
    ensures Then(p, Then(q, r)) == Then(p + q, r)
  {
    if r.Success? {
      assert p + (q + r.value) == (p + q) + r.value;
    }
  }

  /** One step of the writes, spelled out. */
  lemma PushesCons(s: Step, rest: seq<Step>, shouldBail: bool)
    ensures Pushes([s] + rest, shouldBail) ==
      if s.verdict.Failure? then Trail([], false)
      else if s.verdict.value then Pushes(rest, shouldBail || s.marker)
      else if s.message.Failure? then Trail([], true)
      else if shouldBail || s.marker then Trail([s.message.value], true)
      else Trail([s.message.value] + Pushes(rest, shouldBail || s.marker).pushed, true)
  {
    assert ([s] + rest)[0] == s && ([s] + rest)[1..] == rest;
  }

  /** One turn of the loop on the writes so far. */
  lemma PushStep(prefix: seq<string>, s: Step, rest: seq<Step>, shouldBail: bool, pass: bool, msg: string)
    requires s.verdict == Success(pass)
    requires !pass ==> s.message == Success(msg)
    ensures Extend(prefix, Pushes([s] + rest, shouldBail)) ==
      if pass then Extend(prefix, Pushes(rest, shouldBail || s.marker))
      else Extend(prefix + [msg], if shouldBail || s.marker then Trail([], false) else Pushes(rest, shouldBail || s.marker))
  {
    PushesCons(s, rest, shouldBail);
    if !pass {
      assert prefix + [msg] + [] == prefix + [msg];
      assert prefix + ([msg] + Pushes(rest, shouldBail || s.marker).pushed) == prefix + [msg] + Pushes(rest, shouldBail || s.marker).pushed;
    }
  }

  /** When the loop ends normally, it has pushed exactly the messages it reports, and
      created the field's array exactly when there is one. */
  lemma {:induction false} PushesAgree(ss: seq<Step>, shouldBail: bool)
    requires Walk(ss, shouldBail).Success?
    ensures Pushes(ss, shouldBail) == Trail(Walk(ss, shouldBail).value, Walk(ss, shouldBail).value != [])
    decreases |ss|
  {
    if ss != [] {
      assert ss == [ss[0]] + ss[1..];
      WalkCons(ss[0], ss[1..], shouldBail);
      PushesCons(ss[0], ss[1..], shouldBail);
      if ss[0].verdict.value || !(shouldBail || ss[0].marker) {
        PushesAgree(ss[1..], shouldBail || ss[0].marker);
      }
    }
  }

  /** A throw keeps the messages pushed before it: when no `bail` marker has been
      seen and the steps before the throwing one end normally, their messages stay. */
  lemma {:induction false} PushesBeforeFault(a: seq<Step>, s: Step, b: seq<Step>)
    requires forall k :: 0 <= k < |a| ==> !a[k].marker
    requires Walk(a, false).Success?
    requires s.verdict.Failure?
    ensures Pushes(a + [s] + b, false) == Trail(Walk(a, false).value, Walk(a, false).value != [])
    decreases |a|
  {
    var ss := a + [s] + b;
    if a == [] {
      assert ss == [s] + b;
      PushesCons(s, b, false);
    } else {
      var t := a[1..];
      assert ss == [a[0]] + (t + [s] + b);
      assert a == [a[0]] + t;
      assert forall k :: 0 <= k < |t| ==> t[k] == a[k + 1];
      WalkCons(a[0], t, false);
      PushesCons(a[0], t + [s] + b, false);
      PushesBeforeFault(t, s, b);
    }
  }

  /** `pushError` for each message of a field: the field's array is created on the
      first push and each message is appended; no other field changes. */
  function Push(store: Store, field: string, msgs: seq<string>): (s: Store)
    ensures forall f :: f != field ==> (f in s <==> f in store) && (f in s ==> s[f] == store[f])
    ensures field in s <==> field in store || msgs != []
    ensures field in s ==> s[field] == (if field in store then store[field] else []) + msgs
  {
    if msgs == [] then store
    else store[field := (if field in store then store[field] else []) + msgs]
  }

  /** The store after `fieldValidate` wrote `t` for `field`. */
  function Record(store: Store, field: string, t: Trail): (s: Store)
    ensures forall f :: f != field ==> (f in s <==> f in store) && (f in s ==> s[f] == store[f])
    ensures field in s <==> field in store || t.reached
    ensures t.reached ==> s[field] == (if field in store then store[field] else []) + t.pushed
    ensures !t.reached ==> s == store
  {
    if t.reached then store[field := (if field in store then store[field] else []) + t.pushed] else store
  }

  /** A trail that ends normally writes what `Push` writes. */
  lemma RecordPush(store: Store, field: string, msgs: seq<string>)
    ensures Record(store, field, Trail(msgs, msgs != [])) == Push(store, field, msgs)
  {
  }

  /** Every rule of every field can render its message. */
  predicate SafeRules(ctx: Context, rules: Rules) {
    forall i :: 0 <= i < |rules| ==> AllRenderable(ctx, rules[i].0, Parse(rules[i].1))
  }

  /** The outcome of validating the `i`-th field on its own. */
  function FieldResult(ctx: Context, rules: Rules, i: nat): Result<seq<string>, Fault>
    requires SafeRules(ctx, rules) && i < |rules|
  {
    FieldErrors(ctx, rules[i].0, Parse(rules[i].1), false)
  }

  /** The writes of the `i`-th field. */
  function FieldTrail(ctx: Context, rules: Rules, i: nat): Trail
    requires SafeRules(ctx, rules) && i < |rules|
  {
    FieldPushes(ctx, rules[i].0, Parse(rules[i].1))
  }

  /** A field with the outcome of validating it and what that wrote into the store. */
  type Outcome = (string, Result<seq<string>, Fault>, Trail)

  /** Each field's outcome, in iteration order. Validation is pure, so computing
      every outcome up front and stopping at the first failure agrees with the loop
      of `passes`, which stops at the first throw. */
  function Outcomes(ctx: Context, rules: Rules): (outs: seq<Outcome>)
    requires SafeRules(ctx, rules)
    ensures |outs| == |rules|
    ensures forall i :: 0 <= i < |rules| ==> outs[i] == (rules[i].0, FieldResult(ctx, rules, i), FieldTrail(ctx, rules, i))
  {
    seq(|rules|, i requires 0 <= i < |rules| => (rules[i].0, FieldResult(ctx, rules, i), FieldTrail(ctx, rules, i)))
  }

  /** The loop of `passes`: stop at the first throw, otherwise push each field's
      messages. */
  function Gather(outs: seq<Outcome>, store: Store): (r: Result<Store, Fault>)
    ensures r.Success? ==> store.Keys <= r.value.Keys
    decreases |outs|
  {
    if outs == [] then Success(store)
    else
      var msgs :- outs[0].1;
      Gather(outs[1..], Push(store, outs[0].0, msgs))
  }

  /** The error store `passes` leaves behind, starting from an empty one. */
  function Run(ctx: Context, rules: Rules): Result<Store, Fault>
    requires SafeRules(ctx, rules)
  {
    Gather(Outcomes(ctx, rules), map[])
  }

  /** The store the loop of `passes` leaves behind, whether it returns or throws:
      each field records its writes, and a field that throws is the last one run. */
  function Leave(outs: seq<Outcome>, store: Store): Store
    decreases |outs|
  {
    if outs == [] then store
    else
      var next := Record(store, outs[0].0, outs[0].2);
      if outs[0].1.Failure? then next else Leave(outs[1..], next)
  }

  /** The store `getErrors()` returns after `passes()`, whether it returned or threw. */
  function Left(ctx: Context, rules: Rules): Store
    requires SafeRules(ctx, rules)
  {
    Leave(Outcomes(ctx, rules), map[])
  }

  /** `passes()`: true when no field collected a message. */
  function RunPasses(ctx: Context, rules: Rules): (r: Result<bool, Fault>)
    requires SafeRules(ctx, rules)
    ensures r.Success? <==> forall i :: 0 <= i < |rules| ==> FieldResult(ctx, rules, i).Success?
    ensures r.Success? ==> (r.value <==> forall i :: 0 <= i < |rules| ==> FieldResult(ctx, rules, i).value == [])
  {
    var outs := Outcomes(ctx, rules);
    GatherFails(outs, map[]);
    match Gather(outs, map[])
    case Failure(e) => Failure(e)
    case Success(store) =>
      GatherEmpty(outs, map[]);
      Success(store == map[])
  }

  /** `fails()`: the negation of `passes()`. */
  function RunFails(ctx: Context, rules: Rules): (r: Result<bool, Fault>)
    requires SafeRules(ctx, rules)
    ensures r.Success? <==> RunPasses(ctx, rules).Success?
    ensures r.Success? ==> (r.value <==> exists i :: 0 <= i < |rules| && FieldResult(ctx, rules, i).value != [])
  {
    var ok :- RunPasses(ctx, rules);
    Success(!ok)
  }

  // ---------------------------------------------------------------------------
  // Properties of one field
  // ---------------------------------------------------------------------------

  /** The messages of the failing steps, in order: the reference for what a field
      reports when nothing bails or throws. */
  function Reported(ss: seq<Step>): (ms: seq<Result<string, Fault>>)
    ensures |ms| <= |ss|
    decreases |ss|
  {
    if ss == [] then []
    else (if ss[0].verdict == Success(false) then [ss[0].message] else []) + Reported(ss[1..])
  }

  /** Without a `bail` marker, and when no rule throws, a field's messages are the
      messages of its failing rules, one each, in order. */
  lemma {:induction false} WalkNoBail(ss: seq<Step>)
    requires forall k :: 0 <= k < |ss| ==> !ss[k].marker && ss[k].verdict.Success?
    requires forall k :: 0 <= k < |Reported(ss)| ==> Reported(ss)[k].Success?
    ensures Walk(ss, false) == Success(Unwrapped(Reported(ss)))
    decreases |ss|
  {
    if ss != [] {
      var s0, tail := ss[0], ss[1..];
      assert ss == [s0] + tail;
      var rest := Reported(tail);
      var head := if s0.verdict == Success(false) then [s0.message] else [];
      assert Reported(ss) == head + rest;
      assert forall k :: 0 <= k < |tail| ==> tail[k] == ss[k + 1];
      assert forall k :: 0 <= k < |rest| ==> rest[k] == Reported(ss)[|head| + k];
      WalkNoBail(tail);
      WalkCons(s0, tail, false);
      UnwrappedAppend(head, rest);
      if s0.verdict == Success(false) {
        assert Reported(ss)[0] == s0.message;
        assert Unwrapped(head) == [s0.message.value];
      } else {
        assert head == [] && Reported(ss) == rest;
      }
    }
  }

  /** The values of a list of successful results. */
  function Unwrapped(rs: seq<Result<string, Fault>>): (vs: seq<string>)
    requires forall k :: 0 <= k < |rs| ==> rs[k].Success?
    ensures |vs| == |rs|
    ensures forall k :: 0 <= k < |rs| ==> vs[k] == rs[k].value
  {
    seq(|rs|, k requires 0 <= k < |rs| => rs[k].value)
  }

  lemma UnwrappedAppend(a: seq<Result<string, Fault>>, b: seq<Result<string, Fault>>)
    requires forall k :: 0 <= k < |a + b| ==> (a + b)[k].Success?
    ensures forall k :: 0 <= k < |a| ==> a[k].Success?
    ensures forall k :: 0 <= k < |b| ==> b[k].Success?
    ensures Unwrapped(a + b) == Unwrapped(a) + Unwrapped(b)
  {
    assert forall k :: 0 <= k < |a| ==> a[k] == (a + b)[k];
    assert forall k :: 0 <= k < |b| ==> b[k] == (a + b)[|a| + k];
  }

  /** Failures before any `bail` marker never stop the loop: the messages are those
      of the prefix followed by those of the rest. */
  lemma {:induction false} WalkAppend(a: seq<Step>, b: seq<Step>)
    requires forall k :: 0 <= k < |a| ==> !a[k].marker
    ensures Walk(a + b, false) ==
      if Walk(a, false).Failure? then Walk(a, false)
      else Then(Walk(a, false).value, Walk(b, false))
    decreases |a|
  {
    if a == [] {
      assert a + b == b;
    } else {
      assert (a + b)[0] == a[0] && (a + b)[1..] == a[1..] + b;
      assert forall k :: 0 < k < |a| ==> a[1..][k - 1] == a[k];
      WalkAppend(a[1..], b);
      if a[0].verdict == Success(false) && a[0].message.Success? && Walk(a[1..], false).Success? && Walk(b, false).Success? {
        var msg := a[0].message.value;
        var v := Walk(a[1..], false).value;
        var w := Walk(b, false).value;
        assert Walk(a, false) == Success([msg] + v);
        assert Walk(a + b, false) == Success([msg] + (v + w));
        assert [msg] + (v + w) == ([msg] + v) + w;
      }
    }
  }

  /** Once a `bail` marker has been seen (before or at step `s`), the first failing
      step is the last one: its message is the only one, and nothing after it runs,
      not even rules that would throw. */
  lemma {:induction false} WalkBailStops(shouldBail: bool, a: seq<Step>, s: Step, b: seq<Step>)
    requires shouldBail || s.marker || exists k :: 0 <= k < |a| && a[k].marker
    requires forall k :: 0 <= k < |a| ==> a[k].verdict == Success(true)
    requires s.verdict == Success(false)
    ensures Walk(a + [s] + b, shouldBail) ==
      if s.message.Failure? then Failure(s.message.error) else Success([s.message.value])
    decreases |a|
  {
    var ss := a + [s] + b;
    if a == [] {
      assert ss[0] == s;
    } else {
      assert ss[0] == a[0] && ss[1..] == a[1..] + [s] + b;
      var bail := shouldBail || a[0].marker;
      if !bail && !s.marker {
        var k :| 0 <= k < |a| && a[k].marker;
        assert k != 0 && a[1..][k - 1] == a[k];
      }
      assert forall k :: 0 < k < |a| ==> a[1..][k - 1] == a[k];
      WalkBailStops(bail, a[1..], s, b);
    }
  }

  /** A rule that throws aborts the field once every rule before it has passed,
      whatever the rules after it. */
  lemma {:induction false} WalkFaultStops(shouldBail: bool, a: seq<Step>, s: Step, b: seq<Step>)
    requires forall k :: 0 <= k < |a| ==> a[k].verdict == Success(true)
    requires s.verdict.Failure?
    ensures Walk(a + [s] + b, shouldBail) == Failure(s.verdict.error)
    decreases |a|
  {
    var ss := a + [s] + b;
    if a == [] {
      assert ss[0] == s;
    } else {
      assert ss[0] == a[0] && ss[1..] == a[1..] + [s] + b;
      assert forall k :: 0 < k < |a| ==> a[1..][k - 1] == a[k];
      WalkFaultStops(shouldBail || a[0].marker, a[1..], s, b);
    }
  }

  /** A field whose first rule is `bail` reports at most one message. */
  lemma BailFirstAtMostOne(ctx: Context, field: string, ds: seq<Descriptor>)
    requires AllRenderable(ctx, field, ds)
    requires ds != [] && IsBailMarker(ds[0])
    ensures FieldErrors(ctx, field, ds, false).Success? ==> |FieldErrors(ctx, field, ds, false).value| <= 1
  {
    var ss := Steps(ctx, field, ds);
    assert ss[0] == StepOf(ctx, field, ds[0]);
    assert ss == [ss[0]] + ss[1..];
    WalkCons(ss[0], ss[1..], false);
  }

  /** A field's messages depend only on the data, the helpers and that field's own
      alias and overrides. */
  lemma {:induction false} FieldLocal(c1: Context, c2: Context, field: string, ds: seq<Descriptor>, shouldBail: bool)
    requires c1.support == c2.support && c1.defaults == c2.defaults && c1.data == c2.data
    requires AliasOf(c1, field) == AliasOf(c2, field) && OverridesOf(c1, field) == OverridesOf(c2, field)
    requires AllRenderable(c1, field, ds)
    ensures AllRenderable(c2, field, ds)
    ensures Steps(c1, field, ds) == Steps(c2, field, ds)
    ensures FieldErrors(c1, field, ds, shouldBail) == FieldErrors(c2, field, ds, shouldBail)
    decreases |ds|
  {
    if ds != [] {
      FieldLocal(c1, c2, field, ds[1..], shouldBail);
      assert StepOf(c1, field, ds[0]) == StepOf(c2, field, ds[0]);
    }
  }

  // ---------------------------------------------------------------------------
  // Properties of a whole run
  // ---------------------------------------------------------------------------

  /** A run fails exactly when some field's validation throws. */
  lemma {:induction false} GatherFails(outs: seq<Outcome>, store: Store)
    ensures Gather(outs, store).Success? <==> forall i :: 0 <= i < |outs| ==> outs[i].1.Success?
    decreases |outs|
  {
    if outs != [] && outs[0].1.Success? {
      GatherFails(outs[1..], Push(store, outs[0].0, outs[0].1.value));
      assert forall i :: 0 < i < |outs| ==> outs[1..][i - 1] == outs[i];
    }
  }

  /** The final store is empty exactly when the run started empty and no field
      produced a message. */
  lemma {:induction false} GatherEmpty(outs: seq<Outcome>, store: Store)
    requires Gather(outs, store).Success?
    ensures forall i :: 0 <= i < |outs| ==> outs[i].1.Success?
    ensures Gather(outs, store).value == map[] <==>
      store == map[] && forall i :: 0 <= i < |outs| ==> outs[i].1.value == []
    decreases |outs|
  {
    GatherFails(outs, store);
    if outs != [] {
      var msgs := outs[0].1.value;
      var next := Push(store, outs[0].0, msgs);
      GatherEmpty(outs[1..], next);
      assert forall i :: 0 < i < |outs| ==> outs[1..][i - 1] == outs[i];
      if msgs != [] {
        assert outs[0].0 in next;
      }
    }
  }

  /** Field names are distinct: the keys of an object. */
  predicate DistinctFields(outs: seq<Outcome>) {
    forall i, j :: 0 <= i < j < |outs| ==> outs[i].0 != outs[j].0
  }

  /** After a successful run each field is a key of the store exactly when it
      produced a message, and then holds exactly its messages; other keys keep their
      starting entry. */
  lemma {:induction false} GatherContents(outs: seq<Outcome>, store: Store)
    requires DistinctFields(outs)
    requires forall i :: 0 <= i < |outs| ==> outs[i].0 !in store
    requires Gather(outs, store).Success?
    ensures forall i :: 0 <= i < |outs| ==> outs[i].1.Success?
    ensures var st := Gather(outs, store).value;
      forall i :: 0 <= i < |outs| ==>
        (outs[i].0 in st <==> outs[i].1.value != []) &&
        (outs[i].0 in st ==> st[outs[i].0] == outs[i].1.value)
    ensures var st := Gather(outs, store).value;
      forall f :: (forall i :: 0 <= i < |outs| ==> outs[i].0 != f) ==>
        (f in st <==> f in store) && (f in st ==> st[f] == store[f])
    decreases |outs|
  {
    GatherFails(outs, store);
    if outs != [] {
      var field := outs[0].0;
      var msgs := outs[0].1.value;
      var next := Push(store, field, msgs);
      var tail := outs[1..];
      assert forall i :: 0 <= i < |tail| ==> tail[i] == outs[i + 1];
      GatherContents(tail, next);
      var st := Gather(outs, store).value;
      assert st == Gather(tail, next).value;
      assert forall i :: 0 <= i < |tail| ==> tail[i].0 != field;
    }
  }

  /** The store `passes` leaves behind maps exactly the fields with messages to
      those messages, and nothing else. */
  lemma RunContents(ctx: Context, rules: Rules)
    requires SafeRules(ctx, rules)
    requires forall i, j :: 0 <= i < j < |rules| ==> rules[i].0 != rules[j].0
    requires Run(ctx, rules).Success?
    ensures forall i :: 0 <= i < |rules| ==> FieldResult(ctx, rules, i).Success?
    ensures var st := Run(ctx, rules).value;
      (forall i :: 0 <= i < |rules| ==>
        (rules[i].0 in st <==> FieldResult(ctx, rules, i).value != []) &&
        (rules[i].0 in st ==> st[rules[i].0] == FieldResult(ctx, rules, i).value)) &&
      forall f :: f in st ==> exists i :: 0 <= i < |rules| && rules[i].0 == f
  {
    var outs := Outcomes(ctx, rules);
    GatherContents(outs, map[]);
  }

  /** Each outcome that returns wrote exactly its messages. */
  predicate Consistent(outs: seq<Outcome>) {
    forall i :: 0 <= i < |outs| && outs[i].1.Success? ==> outs[i].2 == Trail(outs[i].1.value, outs[i].1.value != [])
  }

  lemma OutcomesConsistent(ctx: Context, rules: Rules)
    requires SafeRules(ctx, rules)
    ensures Consistent(Outcomes(ctx, rules))
  {
    forall i | 0 <= i < |rules| && FieldResult(ctx, rules, i).Success?
      ensures FieldTrail(ctx, rules, i) == Trail(FieldResult(ctx, rules, i).value, FieldResult(ctx, rules, i).value != [])
    {
      PushesAgree(Steps(ctx, rules[i].0, Parse(rules[i].1)), false);
    }
  }

  /** A run that returns leaves the store it reports. */
  lemma {:induction false} LeaveGather(outs: seq<Outcome>, store: Store)
    requires Consistent(outs)
    requires Gather(outs, store).Success?
    ensures Leave(outs, store) == Gather(outs, store).value
    decreases |outs|
  {
    if outs != [] {
      var msgs := outs[0].1.value;
      RecordPush(store, outs[0].0, msgs);
      assert forall i :: 0 <= i < |outs| - 1 ==> outs[1..][i] == outs[i + 1];
      LeaveGather(outs[1..], Push(store, outs[0].0, msgs));
    }
  }

  /** When `passes()` returns, the store is the one `Run` describes. */
  lemma LeftAfterRun(ctx: Context, rules: Rules)
    requires SafeRules(ctx, rules)
    requires Run(ctx, rules).Success?
    ensures Left(ctx, rules) == Run(ctx, rules).value
  {
    OutcomesConsistent(ctx, rules);
    LeaveGather(Outcomes(ctx, rules), map[]);
  }

  /** When outcome `j` is the first to throw, the outcomes before it push their
      messages and outcome `j` adds what it wrote before the throw. */
  lemma {:induction false} LeaveThrow(outs: seq<Outcome>, j: nat, store: Store)
    requires Consistent(outs) && j < |outs|
    requires forall k :: 0 <= k < j ==> outs[k].1.Success?
    requires outs[j].1.Failure?
    ensures Gather(outs[..j], store).Success?
    ensures Leave(outs, store) == Record(Gather(outs[..j], store).value, outs[j].0, outs[j].2)
    decreases j
  {
    if j == 0 {
      assert outs[..j] == [];
    } else {
      var msgs := outs[0].1.value;
      var next := Push(store, outs[0].0, msgs);
      RecordPush(store, outs[0].0, msgs);
      var tail := outs[1..];
      assert forall i :: 0 <= i < |tail| ==> tail[i] == outs[i + 1];
      assert outs[..j][0] == outs[0] && outs[..j][1..] == tail[..j - 1];
      LeaveThrow(tail, j - 1, next);
    }
  }

  /** When `passes()` throws in field `j`, `getErrors()` still holds the messages of
      every earlier field and whatever field `j` pushed before the throw. */
  lemma LeftAfterThrow(ctx: Context, rules: Rules, j: nat)
    requires SafeRules(ctx, rules) && j < |rules|
    requires forall k :: 0 <= k < j ==> FieldResult(ctx, rules, k).Success?
    requires FieldResult(ctx, rules, j).Failure?
    ensures Run(ctx, rules) == Failure(FieldResult(ctx, rules, j).error)
    ensures Gather(Outcomes(ctx, rules)[..j], map[]).Success?
    ensures Left(ctx, rules) == Record(Gather(Outcomes(ctx, rules)[..j], map[]).value, rules[j].0, FieldTrail(ctx, rules, j))
  {
    OutcomesConsistent(ctx, rules);
    LeaveThrow(Outcomes(ctx, rules), j, map[]);
    GatherThrow(Outcomes(ctx, rules), map[], j);
  }

  /** The run fails with the first failure. */
  lemma {:induction false} GatherThrow(outs: seq<Outcome>, store: Store, j: nat)
    requires j < |outs| && outs[j].1.Failure?
    requires forall k :: 0 <= k < j ==> outs[k].1.Success?
    ensures Gather(outs, store) == Failure(outs[j].1.error)
    decreases j
  {
    if j > 0 {
      assert forall k :: 0 <= k < j - 1 ==> outs[1..][k] == outs[k + 1];
      GatherThrow(outs[1..], Push(store, outs[0].0, outs[0].1.value), j - 1);
    }
  }

  // ---------------------------------------------------------------------------
  // Rendering preconditions from the inputs
  // ---------------------------------------------------------------------------

  /** No field name, alias or rule text contains `$`. */
  predicate DollarFree(ctx: Context, rules: Rules) {
    forall i :: 0 <= i < |rules| ==>
      Literal(rules[i].0) && Literal(AliasOf(ctx, rules[i].0)) && SpecAvoids(rules[i].1, {'$'})
  }

  /** Inputs free of `$` render every message literally. */
  lemma DollarFreeSafe(ctx: Context, rules: Rules)
    requires DollarFree(ctx, rules)
    ensures SafeRules(ctx, rules)
  {
    forall i | 0 <= i < |rules|
      ensures AllRenderable(ctx, rules[i].0, Parse(rules[i].1))
    {
      AllRenderableEach(ctx, rules[i].0, Parse(rules[i].1));
      ParseAvoids(rules[i].1, {'$'});
      var ds := Parse(rules[i].1);
      forall k | 0 <= k < |ds|
        ensures Renderable(ctx, rules[i].0, ds[k])
      {
        var d := ds[k];
        if d.Named? {
          assert forall j :: 0 <= j < |d.Args()| ==> d.Args()[j] == d.Tokens()[j + 1];
        }
      }
    }
  }

  // ---------------------------------------------------------------------------
  // The stateful class
  // ---------------------------------------------------------------------------

  /** The `Validator` object: fixed inputs and the error store of the last run. */
  class Checker {
    const ctx: Context
    const rules: Rules
    var errors: Store

    constructor(support: Support, data: Data, rules: Rules, messages: map<string, map<string, string>>, aliases: map<string, string>)
      ensures this.ctx == Context(support, DefaultMessages, data, aliases, messages) && this.rules == rules
      ensures errors == map[]
    {
      this.ctx := Context(support, DefaultMessages, data, aliases, messages);
      this.rules := rules;
      errors := map[];
    }

    /** `fieldValidate(field, rules)`: the field's messages go into the store as
        they are pushed, so a throw keeps those pushed before it. */
    method FieldValidate(field: string, spec: RuleSpec) returns (r: Result<(), Fault>)
      requires AllRenderable(ctx, field, Parse(spec))
      modifies this
      ensures r.Success? <==> FieldErrors(ctx, field, Parse(spec), false).Success?
      ensures r.Failure? ==> r.error == FieldErrors(ctx, field, Parse(spec), false).error
      ensures errors == Record(old(errors), field, FieldPushes(ctx, field, Parse(spec)))
    {
      var outcome, trail := ValidateField(ctx, field, spec);
      errors := Record(errors, field, trail);
      if outcome.Failure? {
        return Failure(outcome.error);
      }
      return Success(());
    }

    /** `passes()`: reset the store, validate every field, report whether the store
        stayed empty. A throw leaves the store as far as it got. */
    method Passes() returns (r: Result<bool, Fault>)
      requires SafeRules(ctx, rules)
      modifies this
      ensures r == RunPasses(ctx, rules)
      ensures errors == Left(ctx, rules)
      ensures r.Success? ==> errors == Run(ctx, rules).value
    {
      errors := map[];
      var i := 0;
      assert Outcomes(ctx, rules)[0..] == Outcomes(ctx, rules);
      while i < |rules|
        invariant 0 <= i <= |rules|
        invariant Run(ctx, rules) == Gather(Outcomes(ctx, rules)[i..], errors)
        invariant Left(ctx, rules) == Leave(Outcomes(ctx, rules)[i..], errors)
        decreases |rules| - i
      {
        var (field, spec) := rules[i];
        var outs := Outcomes(ctx, rules)[i..];
        assert outs[0] == (field, FieldResult(ctx, rules, i), FieldTrail(ctx, rules, i)) && outs[1..] == Outcomes(ctx, rules)[i + 1..];
        ghost var before := errors;
        var outcome := FieldValidate(field, spec);
        if outcome.Failure? {
          return Failure(FieldResult(ctx, rules, i).error);
        }
        PushesAgree(Steps(ctx, field, Parse(spec)), false);
        RecordPush(before, field, FieldResult(ctx, rules, i).value);
        i := i + 1;
      }
      return Success(!HasErrors());
    }

    /** `fails()`: the negation of `passes()`, which leaves the same store. */
    method Fails() returns (r: Result<bool, Fault>)
      requires SafeRules(ctx, rules)
      modifies this
      ensures r == RunFails(ctx, rules)
      ensures errors == Left(ctx, rules)
      ensures r.Success? ==> errors == Run(ctx, rules).value
    {
      var ok := Passes();
      if ok.Failure? {
        return Failure(ok.error);
      }
      return Success(!ok.value);
    }

    /** `getErrors()`. */
    function GetErrors(): Store
      reads this
    {
      errors
    }

    /** `hasErrors()`: the store has at least one key. */
    predicate HasErrors()
      reads this
      ensures HasErrors() <==> exists f :: f in errors
    {
      |errors.Keys| > 0
    }
  }
}

/** `RuleError.getErrorMessage`: picks a message template for a failed rule and
    fills it in, first `:attribute` (every occurrence, any letter case), then the
    rule's parameters one by one into the leftmost remaining `:word` placeholder. */
module RuleError {
  import opened Wrappers
  import opened Text
  import opened Values
  import opened RuleParser

  /** The private, read-only static `RuleError.default_messages`, keyed by the rule
      name as written in the rule string. It covers more rules than the dispatch
      table implements. The operations below take the table as a parameter only so
      that their lemmas hold for any table; `Validator.Checker` fixes it to this one. */
  const DefaultMessages: map<string, string> := map[
    "accepted" := "The :attribute must be accepted.",
    "active_url" := "The :attribute is not a valid URL.",
    "after" := "The :attribute must be a date after :date.",
    "after_or_equal" := "The :attribute must be a date after or equal to :date.",
    "alpha" := "The :attribute may only contain letters.",
    "alpha_dash" := "The :attribute may only contain letters, numbers, dashes and underscores.",
    "alpha_num" := "The :attribute may only contain letters and numbers.",
    "array" := "The :attribute must be an array.",
    "before" := "The :attribute must be a date before :date.",
    "before_or_equal" := "The :attribute must be a date before or equal to :date.",
    "between" := "The :attribute must be between :min and :max.",
    "boolean" := "The :attribute field must be true or false.",
    "confirm" := "The :attribute confirmation does not match.",
    "date" := "The :attribute is not a valid date.",
    "date_equals" := "The :attribute must be a date equal to :date.",
    "date_format" := "The :attribute does not match the format :format.",
    "different" := "The :attribute and :other must be different.",
    "digits" := "The :attribute must be :digits digits.",
    "digits_between" := "The :attribute must be between :min and :max digits.",
    "dimensions" := "The :attribute has invalid image dimensions.",
    "distinct" := "The :attribute field has a duplicate value.",
    "email" := "The :attribute must be a valid email address.",
    "exists" := "The selected :attribute is invalid.",
    "file" := "The :attribute must be a file.",
    "filled" := "The :attribute field must have a value.",
    "image" := "The :attribute must be an image.",
    "in" := "The selected :attribute is invalid.",
    "in_array" := "The :attribute field does not exist in :other.",
    "integer" := "The :attribute must be an integer.",
    "ip" := "The :attribute must be a valid IP address.",
    "ipv4" := "The :attribute must be a valid IPv4 address.",
    "ipv6" := "The :attribute must be a valid IPv6 address.",
    "json" := "The :attribute must be a valid JSON string.",
    "max" := "The :attribute may not be greater than :max.",
    "mimes" := "The :attribute must be a file of type: :values.",
    "mimetypes" := "The :attribute must be a file of type: :values.",
    "min" := "The :attribute field must have at least :min characters.",
    "not_in" := "The selected :attribute is invalid.",
    "not_regex" := "The :attribute format is invalid.",
    "numeric" := "The :attribute must be a number.",
    "present" := "The :attribute field must be present.",
    "regex" := "The :attribute format is invalid.",
    "required" := "The :attribute field is required.",
    "required_if" := "The :attribute field is required when :other is :value.",
    "required_unless" := "The :attribute field is required unless :other is in :values.",
    "required_with" := "The :attribute field is required when :values is present.",
    "required_with_all" := "The :attribute field is required when :values are present.",
    "required_without" := "The :attribute field is required when :values is not present.",
    "required_without_all" := "The :attribute field is required when none of :values are present.",
    "same" := "The :attribute and :other must match.",
    "size" := "The :attribute must be :size.",
    "starts_with" := "The :attribute must start with one of the following: :values",
    "string" := "The :attribute must be a string.",
    "timezone" := "The :attribute must be a valid zone.",
    "unique" := "The :attribute has already been taken.",
    "uploaded" := "The :attribute failed to upload.",
    "url" := "The :attribute format is invalid.",
    "uuid" := "The :attribute must be a valid UUID."

  ]

  // ---------------------------------------------------------------------------
  // Template choice
  // ---------------------------------------------------------------------------

  /** `custom_messages[key] || fallback`: an override counts only when present and
      non-empty. */
  function Override(custom: map<string, string>, key: string): Option<string> {
    if key in custom && custom[key] != "" then Some(custom[key]) else None
  }

  /** The template of a failed rule, or `None` where the code reads `undefined`. A
      built-in name looks up its own override, then the default table; a rule object
      looks up `snake('custom' + name)`, then uses its own message. */
  function Template(support: Support, defaults: map<string, string>, d: Descriptor, custom: map<string, string>): (t: Option<string>)
    ensures d.Named? && d.name in custom && custom[d.name] != "" ==> t == Some(custom[d.name])
    ensures d.Named? && (d.name !in custom || custom[d.name] == "") ==>
      t == (if d.name in defaults then Some(defaults[d.name]) else None)
    ensures d.Custom? ==> t.Some?
    ensures d.Custom? && Override(custom, support.snake("custom" + d.rule.name)).Some? ==>
      t == Override(custom, support.snake("custom" + d.rule.name))
    ensures d.Custom? && Override(custom, support.snake("custom" + d.rule.name)).None? ==> t == Some(d.rule.message)
  {
    match d
    case Custom(rule) =>
      var key := support.snake("custom" + rule.name);
      Some(if key in custom && custom[key] != "" then custom[key] else rule.message)
    case Named(name, _) =>
      if name in custom && custom[name] != "" then Some(custom[name])
      else if name in defaults then Some(defaults[name])
      else None
  }

  /** The display name: the alias when it is non-empty, the field name otherwise. */
  function AttributeName(field: string, alias: string): (n: string)
    ensures alias != "" ==> n == alias
    ensures alias == "" ==> n == field
  {
    if alias != "" then alias else field
  }

  // ---------------------------------------------------------------------------
  // `message.replace(/:attribute/giu, name)`
  // ---------------------------------------------------------------------------

  /** `:attribute` in any mix of letter case. Under case-insensitive Unicode matching
      only the ASCII capitals fold onto the letters of "attribute". */
  predicate IsAttributeWord(t: string) {
    |t| == 10 && t[0] == ':' && forall k :: 0 <= k < 9 ==> LowerAscii(t[k + 1]) == "attribute"[k]
  }

  /** An occurrence of the attribute placeholder starts at `i`. */
  predicate AttributeAt(msg: string, i: nat) {
    i + 10 <= |msg| && IsAttributeWord(msg[i..i + 10])
  }

  /** Replaces every occurrence, scanning left to right. */
  function ReplaceAttribute(msg: string, name: string): string
    decreases |msg|
  {
    if msg == [] then []
    else if |msg| >= 10 && IsAttributeWord(msg[..10]) then name + ReplaceAttribute(msg[10..], name)
    else [msg[0]] + ReplaceAttribute(msg[1..], name)
  }

  /** A message without the placeholder is left as it is. */
  lemma {:induction false} ReplaceAttributeAbsent(msg: string, name: string)
    requires forall i :: 0 <= i < |msg| ==> !AttributeAt(msg, i)
    ensures ReplaceAttribute(msg, name) == msg
    decreases |msg|
  {
    if msg != [] {
      assert !AttributeAt(msg, 0);
      if |msg| >= 10 {
        assert msg[..10] == msg[0..10];
      }
      forall i | 0 <= i < |msg[1..]|
        ensures !AttributeAt(msg[1..], i)
      {
        assert !AttributeAt(msg, i + 1);
        if i + 10 <= |msg[1..]| {
          assert msg[1..][i..i + 10] == msg[i + 1..i + 11];
        }
      }
      ReplaceAttributeAbsent(msg[1..], name);
      assert [msg[0]] + msg[1..] == msg;
    }
  }

  /** Every occurrence is replaced, wherever it sits: the text around it is
      processed independently, since no occurrence can overlap the placeholder. */
  lemma {:induction false} ReplaceAttributeSplice(a: string, t: string, b: string, name: string)
    requires IsAttributeWord(t)
    ensures ReplaceAttribute(a + t + b, name) == ReplaceAttribute(a, name) + name + ReplaceAttribute(b, name)
    decreases |a|
  {
    if a == [] {
      SpliceAtStart(t, b, name);
    } else if |a| >= 10 && IsAttributeWord(a[..10]) {
      ReplaceAttributeSplice(a[10..], t, b, name);
      SpliceAfterWord(a, t, b, name);
    } else {
      ReplaceAttributeSplice(a[1..], t, b, name);
      SpliceAfterChar(a, t, b, name);
    }
  }

  lemma SpliceAtStart(t: string, b: string, name: string)
    requires IsAttributeWord(t)
    ensures ReplaceAttribute([] + t + b, name) == ReplaceAttribute([], name) + name + ReplaceAttribute(b, name)
  {
    var msg := [] + t + b;
    assert msg == t + b;
    assert msg[..10] == t;
    assert msg[10..] == b;
  }

  lemma SpliceAfterWord(a: string, t: string, b: string, name: string)
    requires IsAttributeWord(t) && |a| >= 10 && IsAttributeWord(a[..10])
    requires ReplaceAttribute(a[10..] + t + b, name) == ReplaceAttribute(a[10..], name) + name + ReplaceAttribute(b, name)
    ensures ReplaceAttribute(a + t + b, name) == ReplaceAttribute(a, name) + name + ReplaceAttribute(b, name)
  {
    var msg := a + t + b;
    assert msg[..10] == a[..10];
    assert msg[10..] == a[10..] + t + b;
  }

  lemma SpliceAfterChar(a: string, t: string, b: string, name: string)
    requires IsAttributeWord(t) && a != [] && !(|a| >= 10 && IsAttributeWord(a[..10]))
    requires ReplaceAttribute(a[1..] + t + b, name) == ReplaceAttribute(a[1..], name) + name + ReplaceAttribute(b, name)
    ensures ReplaceAttribute(a + t + b, name) == ReplaceAttribute(a, name) + name + ReplaceAttribute(b, name)
  {
    var msg := a + t + b;
    NoAttributeBefore(a, t, b);
    assert msg[0] == a[0];
    assert msg[1..] == a[1..] + t + b;
    assert ReplaceAttribute(a, name) == [a[0]] + ReplaceAttribute(a[1..], name);
  }

  /** When `a` does not start with the placeholder, neither does `a + t + b`: a
      shorter `a` would need the ':' of `t` inside the word "attribute". */
  lemma NoAttributeBefore(a: string, t: string, b: string)
    requires IsAttributeWord(t) && a != []
    requires !(|a| >= 10 && IsAttributeWord(a[..10]))
    ensures !(|a + t + b| >= 10 && IsAttributeWord((a + t + b)[..10]))
  {
    var msg := a + t + b;
    if |a| >= 10 {
      assert msg[..10] == a[..10];
    } else {
      var k := |a| - 1;
      assert msg[..10][k + 1] == t[0] == ':';
      assert LowerAscii(':') == ':';
      assert "attribute"[k] != ':';
    }
  }

  /** Matching ignores letter case. */
  lemma AttributeCaseInsensitive()
    ensures IsAttributeWord(":attribute")
    ensures IsAttributeWord(":ATTRIBUTE")
    ensures IsAttributeWord(":Attribute")
    ensures !IsAttributeWord(":attributs")
  {
    assert LowerAscii(":attributs"[9]) != "attribute"[8];
  }

  // ---------------------------------------------------------------------------
  // `message.replace(/(:\w+)/u, param)`, once per parameter
  // ---------------------------------------------------------------------------

  /** A placeholder starts at `i`: a ':' followed by a word character. */
  predicate PlaceholderAt(msg: string, i: nat) {
    i + 1 < |msg| && msg[i] == ':' && IsWordChar(msg[i + 1])
  }

  predicate NoPlaceholder(msg: string) {
    forall i :: 0 <= i < |msg| ==> !PlaceholderAt(msg, i)
  }

  /** The leftmost placeholder at or after `from`. */
  function FirstPlaceholder(msg: string, from: nat): (r: Option<nat>)
    requires from <= |msg|
    ensures r.Some? ==> from <= r.value < |msg| && PlaceholderAt(msg, r.value)
    ensures r.Some? ==> forall k :: from <= k < r.value ==> !PlaceholderAt(msg, k)
    ensures r.None? ==> forall k :: from <= k < |msg| ==> !PlaceholderAt(msg, k)
    decreases |msg| - from
  {
    if from + 1 >= |msg| then None
    else if PlaceholderAt(msg, from) then Some(from)
    else FirstPlaceholder(msg, from + 1)
  }

  /** End of the run of word characters starting at `j` (`\w+` is greedy). */
  function WordEnd(msg: string, j: nat): (e: nat)
    requires j <= |msg|
    ensures j <= e <= |msg|
    ensures forall k :: j <= k < e ==> IsWordChar(msg[k])
    ensures e == |msg| || !IsWordChar(msg[e])
    decreases |msg| - j
  {
    if j < |msg| && IsWordChar(msg[j]) then WordEnd(msg, j + 1) else j
  }

  /** Replaces the leftmost `:word` placeholder, if there is one, by `param`. */
  function ReplaceFirst(msg: string, param: string): string {
    match FirstPlaceholder(msg, 0)
    case None => msg
    case Some(i) => msg[..i] + param + msg[WordEnd(msg, i + 1)..]
  }

  /** `replaceParams`: the parameters in order, each into the leftmost placeholder
      still left. */
  function ReplaceParams(msg: string, params: seq<string>): string
    decreases |params|
  {
    if params == [] then msg else ReplaceParams(ReplaceFirst(msg, params[0]), params[1..])
  }

  /** One or more word characters: a placeholder's name. */
  predicate IsWord(w: string) {
    w != [] && forall i :: 0 <= i < |w| ==> IsWordChar(w[i])
  }

  /** Reference behaviour of one replacement: in `head:word tail`, where `head` holds
      no placeholder and `tail` does not continue the word, `:word` becomes `param`. */
  lemma ReplaceFirstShape(head: string, w: string, tail: string, param: string)
    requires NoPlaceholder(head)
    requires IsWord(w)
    requires tail == [] || !IsWordChar(tail[0])
    ensures ReplaceFirst(head + ":" + w + tail, param) == head + param + tail
  {
    var msg := head + ":" + w + tail;
    var i := |head|;
    assert PlaceholderAt(msg, i) by {
      assert msg[i] == ':' && msg[i + 1] == w[0];
    }
    forall k | 0 <= k < i
      ensures !PlaceholderAt(msg, k)
    {
      if k + 1 < i {
        assert msg[k] == head[k] && msg[k + 1] == head[k + 1];
        assert !PlaceholderAt(head, k);
      } else {
        assert msg[k + 1] == ':';
      }
    }
    var e := i + 1 + |w|;
    assert forall k :: i + 1 <= k < e ==> msg[k] == w[k - i - 1];
    assert e == |msg| || msg[e] == tail[0];
    WordEndFrom(msg, i + 1, e);
    assert msg[..i] == head;
    assert msg[e..] == tail;
  }

  lemma {:induction false} WordEndFrom(msg: string, j: nat, e: nat)
    requires j <= e <= |msg|
    requires forall k :: j <= k < e ==> IsWordChar(msg[k])
    requires e == |msg| || !IsWordChar(msg[e])
    ensures WordEnd(msg, j) == e
    decreases e - j
  {
    if j < e {
      WordEndFrom(msg, j + 1, e);
    }
  }

  /** Without a placeholder there is nothing to replace: every parameter is ignored. */
  lemma {:induction false} ReplaceParamsNoPlaceholder(msg: string, params: seq<string>)
    requires NoPlaceholder(msg)
    ensures ReplaceParams(msg, params) == msg
    decreases |params|
  {
    if params != [] {
      assert FirstPlaceholder(msg, 0).None?;
      ReplaceParamsNoPlaceholder(msg, params[1..]);
    }
  }

  /** Parameters are not protected from later replacements: a parameter that itself
      holds `:word` puts a placeholder back into the message, and the next parameter
      goes there instead of into the template's next placeholder. */
  lemma ParamPlaceholderReused(head: string, w: string, tail: string, pre: string, v: string, r: string)
    requires Avoids(head, {':'}) && Avoids(pre, {':'})
    requires IsWord(w) && IsWord(v)
    requires tail == [] || !IsWordChar(tail[0])
    ensures ReplaceParams(head + ":" + w + tail, [pre + ":" + v, r]) == head + pre + r + tail
  {
    ReplaceParamsTwo(head + ":" + w + tail, pre + ":" + v, r);
    ParamLandsInPlaceholder(head, w, tail, pre, v);
    AvoidsConcat(head, pre, {':'});
    ReplaceFirstShape(head + pre, v, tail, r);
  }

  lemma ParamLandsInPlaceholder(head: string, w: string, tail: string, pre: string, v: string)
    requires Avoids(head, {':'}) && IsWord(w)
    requires tail == [] || !IsWordChar(tail[0])
    ensures ReplaceFirst(head + ":" + w + tail, pre + ":" + v) == (head + pre) + ":" + v + tail
  {
    ReplaceFirstShape(head, w, tail, pre + ":" + v);
    assert head + (pre + ":" + v) + tail == (head + pre) + ":" + v + tail;
  }

  /** Two parameters are two replacements, in order. */
  lemma ReplaceParamsTwo(msg: string, a: string, b: string)
    ensures ReplaceParams(msg, [a, b]) == ReplaceFirst(ReplaceFirst(msg, a), b)
  {
    assert [a, b][1..] == [b] && [b][1..] == [];
    var once := ReplaceFirst(msg, a);
    assert ReplaceParams(msg, [a, b]) == ReplaceParams(once, [b]);
    assert ReplaceParams(once, [b]) == ReplaceParams(ReplaceFirst(once, b), []);
  }

  /** The instance `"x :a :b"` with parameters `["p:q", "r"]`: the second parameter
      lands on the `:q` the first one brought in, and `:b` stays. */
  lemma ParamPlaceholderExample()
    ensures ReplaceParams("x :a :b", ["p:q", "r"]) == "x pr :b"
  {
    ExampleWords();
    ExampleTexts();
    ParamPlaceholderReused("x ", "a", " :b", "p", "q", "r");
  }

  lemma ExampleWords()
    ensures IsWord("a") && IsWord("q") && Avoids("x ", {':'}) && Avoids("p", {':'}) && !IsWordChar(" :b"[0])
  {
  }

  lemma ExampleTexts()
    ensures "x " + ":" + "a" + " :b" == "x :a :b" && "p" + ":" + "q" == "p:q" && "x " + "p" + "r" + " :b" == "x pr :b"
  {
  }

  /** A placeholder of a message template and the literal text after it. */
  datatype Hole = Hole(word: string, after: string)

  /** A hole as it appears in a template: a word, then text with no ':' that does not
      continue the word. */
  predicate WellFormedHole(h: Hole) {
    IsWord(h.word) && Avoids(h.after, {':'}) && (h.after == [] || !IsWordChar(h.after[0]))
  }

  /** The text of the holes, each filled with the next parameter while parameters
      last and left as `:word` afterwards. */
  function Fill(holes: seq<Hole>, params: seq<string>): string
    decreases |holes|
  {
    if holes == [] then ""
    else if params == [] then ":" + holes[0].word + holes[0].after + Fill(holes[1..], [])
    else params[0] + holes[0].after + Fill(holes[1..], params[1..])
  }

  lemma AvoidsColonNoPlaceholder(s: string)
    requires Avoids(s, {':'})
    ensures NoPlaceholder(s)
  {
  }

  /** Reference behaviour of `replaceParams` on a template `head :w1 a1 :w2 a2 ...`
      (literal text without ':'): parameter k fills placeholder k, surplus parameters
      are ignored and placeholders without a parameter stay verbatim. */
  lemma {:induction false} FillTemplate(head: string, holes: seq<Hole>, params: seq<string>)
    requires Avoids(head, {':'})
    requires forall k :: 0 <= k < |holes| ==> WellFormedHole(holes[k])
    requires forall k :: 0 <= k < |params| ==> Avoids(params[k], {':'})
    ensures ReplaceParams(head + Fill(holes, []), params) == head + Fill(holes, params)
    decreases |params|
  {
    if params == [] {
    } else if holes == [] {
      assert head + Fill(holes, []) == head;
      AvoidsColonNoPlaceholder(head);
      ReplaceParamsNoPlaceholder(head, params);
    } else {
      var head' := head + params[0] + holes[0].after;
      assert Avoids(head', {':'}) by {
        assert WellFormedHole(holes[0]);
      }
      FillTemplate(head', holes[1..], params[1..]);
      FillFirstHole(head, holes, params);
    }
  }

  /** One step of `FillTemplate`: the first parameter fills the first hole, and the
      rest is the same problem with a longer literal head. */
  lemma FillFirstHole(head: string, holes: seq<Hole>, params: seq<string>)
    requires Avoids(head, {':'}) && holes != [] && params != []
    requires forall k :: 0 <= k < |holes| ==> WellFormedHole(holes[k])
    requires var head' := head + params[0] + holes[0].after;
      ReplaceParams(head' + Fill(holes[1..], []), params[1..]) == head' + Fill(holes[1..], params[1..])
    ensures ReplaceParams(head + Fill(holes, []), params) == head + Fill(holes, params)
  {
    var h, p := holes[0], params[0];
    var rest := Fill(holes[1..], []);
    var filled := Fill(holes[1..], params[1..]);
    var tail := h.after + rest;
    assert tail == [] || !IsWordChar(tail[0]) by {
      assert WellFormedHole(h);
      if h.after == [] && holes[1..] != [] {
        assert rest[0] == ':';
      }
    }
    assert head + Fill(holes, []) == head + ":" + h.word + tail by {
      assert Fill(holes, []) == ":" + h.word + h.after + rest;
      ConcatAssoc(":" + h.word, h.after, rest);
      ConcatAssoc(head, ":" + h.word, tail);
      ConcatAssoc(head, ":", h.word);
    }
    AvoidsColonNoPlaceholder(head);
    ReplaceFirstShape(head, h.word, tail, p);
    var head' := head + p + h.after;
    assert head + p + tail == head' + rest by {
      ConcatAssoc(head + p, h.after, rest);
    }
    assert head' + filled == head + Fill(holes, params) by {
      assert Fill(holes, params) == p + h.after + filled;
      ConcatAssoc(head + p, h.after, filled);
      ConcatAssoc(head, p, h.after + filled);
      ConcatAssoc(p, h.after, filled);
    }
  }

  // ---------------------------------------------------------------------------
  // The whole message
  // ---------------------------------------------------------------------------

  /** Text that JavaScript's `replace` inserts literally: no `$` pattern in it. */
  predicate Literal(s: string) {
    Avoids(s, {'$'})
  }

  /** `getErrorMessage(field, alias, custom_messages)`. With no template the code
      calls `replace` on `undefined` and throws. */
  function GetErrorMessage(support: Support, defaults: map<string, string>, d: Descriptor, field: string, alias: string, custom: map<string, string>): (r: Result<string, Fault>)
    requires Literal(AttributeName(field, alias))
    requires forall k :: 0 <= k < |d.Args()| ==> Literal(d.Args()[k])
    ensures r.Failure? <==> Template(support, defaults, d, custom).None?
    ensures r.Failure? ==> d.Named? && r.error == NoTemplate(d.name)
  {
    match Template(support, defaults, d, custom)
    case None => Failure(NoTemplate(d.name))
    case Some(template) =>
      var named := ReplaceAttribute(template, AttributeName(field, alias));
      Success(ReplaceParams(named, d.Args()))
  }

  lemma {:induction false} ReplaceParamsKeepsPrefix(msg: string, params: seq<string>, n: nat)
    requires n <= |msg| && Avoids(msg[..n], {':'})
    ensures n <= |ReplaceParams(msg, params)| && ReplaceParams(msg, params)[..n] == msg[..n]
    decreases |params|
  {
    if params != [] {
      var m' := ReplaceFirst(msg, params[0]);
      var first := FirstPlaceholder(msg, 0);
      if first.Some? {
        var i := first.value;
        assert i >= n by {
          forall j | 0 <= j < n
            ensures msg[j] != ':'
          {
            assert msg[..n][j] == msg[j];
          }
        }
        assert m'[..n] == msg[..n];
      }
      assert Avoids(m'[..n], {':'});
      ReplaceParamsKeepsPrefix(m', params[1..], n);
    }
  }

  /** The attribute is substituted before the parameters: text ahead of the first
      `:attribute`, and the name put in its place, are never overwritten by a
      parameter (although `:attribute` itself has the shape of a placeholder). */
  lemma AttributeBeforeParams(support: Support, defaults: map<string, string>, d: Descriptor, field: string, alias: string,
                              custom: map<string, string>, pre: string, t: string, post: string)
    requires Literal(AttributeName(field, alias))
    requires forall k :: 0 <= k < |d.Args()| ==> Literal(d.Args()[k])
    requires Template(support, defaults, d, custom) == Some(pre + t + post)
    requires IsAttributeWord(t) && Avoids(pre, {':'}) && Avoids(AttributeName(field, alias), {':'})
    ensures GetErrorMessage(support, defaults, d, field, alias, custom).Success?
    ensures var m := GetErrorMessage(support, defaults, d, field, alias, custom).value;
      |pre + AttributeName(field, alias)| <= |m| && m[..|pre + AttributeName(field, alias)|] == pre + AttributeName(field, alias)
  {
    var name := AttributeName(field, alias);
    ReplaceAttributeSplice(pre, t, post, name);
    forall i | 0 <= i < |pre|
      ensures !AttributeAt(pre, i)
    {
      if i + 10 <= |pre| {
        assert pre[i..i + 10][0] == pre[i];
      }
    }
    ReplaceAttributeAbsent(pre, name);
    var named := ReplaceAttribute(pre + t + post, name);
    assert named == pre + name + ReplaceAttribute(post, name);
    var n := |pre + name|;
    assert named[..n] == pre + name;
    assert Avoids(named[..n], {':'});
    ReplaceParamsKeepsPrefix(named, d.Args(), n);
  }

  /** No attribute placeholder anywhere in `s`. */
  predicate NoAttribute(s: string) {
    forall i :: 0 <= i < |s| ==> !AttributeAt(s, i)
  }

  /** The whole message for a template `pre :attribute post`, where `pre` holds no
      ':' and `post` is literal text followed by placeholders `head :w1 a1 :w2 a2 ...`
      without a second `:attribute`: the display name takes the attribute's place
      and parameter k fills placeholder k; surplus parameters are ignored and
      placeholders without one stay verbatim. */
  lemma RenderedMessage(support: Support, defaults: map<string, string>, d: Descriptor, field: string, alias: string,
                        custom: map<string, string>, pre: string, t: string, head: string, holes: seq<Hole>)
    requires Template(support, defaults, d, custom) == Some(pre + t + (head + Fill(holes, [])))
    requires IsAttributeWord(t) && Avoids(pre, {':'}) && Avoids(head, {':'})
    requires forall k :: 0 <= k < |holes| ==> WellFormedHole(holes[k])
    requires NoAttribute(head + Fill(holes, []))
    requires Literal(AttributeName(field, alias)) && Avoids(AttributeName(field, alias), {':'})
    requires forall k :: 0 <= k < |d.Args()| ==> Literal(d.Args()[k]) && Avoids(d.Args()[k], {':'})
    ensures GetErrorMessage(support, defaults, d, field, alias, custom) ==
      Success(pre + AttributeName(field, alias) + head + Fill(holes, d.Args()))
  {
    RenderTemplate(pre, t, head, holes, AttributeName(field, alias), d.Args());
  }

  /** The string side of `RenderedMessage`. */
  lemma RenderTemplate(pre: string, t: string, head: string, holes: seq<Hole>, name: string, args: seq<string>)
    requires IsAttributeWord(t) && Avoids(pre, {':'}) && Avoids(head, {':'})
    requires forall k :: 0 <= k < |holes| ==> WellFormedHole(holes[k])
    requires NoAttribute(head + Fill(holes, []))
    requires Avoids(name, {':'})
    requires forall k :: 0 <= k < |args| ==> Avoids(args[k], {':'})
    ensures ReplaceParams(ReplaceAttribute(pre + t + (head + Fill(holes, [])), name), args) == pre + name + head + Fill(holes, args)
  {
    AttributeFirst(pre, t, head, Fill(holes, []), name);
    AvoidsConcat(pre, name, {':'});
    AvoidsConcat(pre + name, head, {':'});
    FillTemplate(pre + name + head, holes, args);
  }

  /** The attribute step of `RenderTemplate`, with the placeholders left as text. */
  lemma AttributeFirst(pre: string, t: string, head: string, rest: string, name: string)
    requires IsAttributeWord(t) && Avoids(pre, {':'}) && NoAttribute(head + rest)
    ensures ReplaceAttribute(pre + t + (head + rest), name) == pre + name + head + rest
  {
    NoColonNoAttribute(pre);
    ReplaceAttributeOnce(pre, t, head + rest, name);
    assert pre + name + (head + rest) == pre + name + head + rest;
  }

  /** A single attribute placeholder is replaced by the name; nothing else changes. */
  lemma ReplaceAttributeOnce(pre: string, t: string, post: string, name: string)
    requires IsAttributeWord(t) && NoAttribute(pre) && NoAttribute(post)
    ensures ReplaceAttribute(pre + t + post, name) == pre + name + post
  {
    ReplaceAttributeSplice(pre, t, post, name);
    ReplaceAttributeAbsent(pre, name);
    ReplaceAttributeAbsent(post, name);
  }

  /** Text without ':' holds no attribute placeholder. */
  lemma NoColonNoAttribute(s: string)
    requires Avoids(s, {':'})
    ensures NoAttribute(s)
  {
    forall i | 0 <= i < |s|
      ensures !AttributeAt(s, i)
    {
      if i + 10 <= |s| {
        assert s[i..i + 10][0] == s[i];
      }
    }
  }
}

/**
 * `json_util.py`: cleaning a model reply down to its JSON payload, and checking a parsed JSON
 * value against a template value ("every template key present, every list element shaped
 * like the template's first element, int and float interchangeable").
 */
module JsonUtil {
  import opened Wrappers
  import opened Strings

  /** A value as `json.loads` returns it. */
  datatype Json =
    | JNull
    | JBool(b: bool)
    | JInt(i: int)
    | JFloat(f: real)
    | JStr(s: string)
    | JArray(items: seq<Json>)
    | JObject(entries: seq<(string, Json)>)

  /** `isinstance(x, (int, float))`; `bool` is a subclass of `int`. */
  predicate IsNumber(j: Json)
  {
    j.JBool? || j.JInt? || j.JFloat?
  }

  /** Which Python type `json.loads` produced; `type(a) is type(b)` compares these. */
  function Kind(j: Json): nat
  {
    match j
    case JNull => 0
    case JBool(_) => 1
    case JInt(_) => 2
    case JFloat(_) => 3
    case JStr(_) => 4
    case JArray(_) => 5
    case JObject(_) => 6
  }

  /** `type(j).__name__`. */
  function TypeName(j: Json): string
  {
    match j
    case JNull => "NoneType"
    case JBool(_) => "bool"
    case JInt(_) => "int"
    case JFloat(_) => "float"
    case JStr(_) => "str"
    case JArray(_) => "list"
    case JObject(_) => "dict"
  }

  /** `key in d` and `d[key]` for a dict; a parsed dict holds each key once. */
  function Lookup(entries: seq<(string, Json)>, key: string): (r: Option<Json>)
    ensures r.None? <==> forall k :: 0 <= k < |entries| ==> entries[k].0 != key
    ensures r.Some? ==> exists k :: 0 <= k < |entries| && entries[k] == (key, r.value)
  {
    if entries == [] then None
    else if entries[0].0 == key then Some(entries[0].1)
    else
      var r := Lookup(entries[1..], key);
      assert r.Some? ==> exists k :: 0 <= k < |entries[1..]| && entries[1..][k] == (key, r.value);
      r
  }

  /** The result of `check_structure`: `(True, "")` or `(False, message)`. */
  datatype Check = Pass | Fail(message: string)

  function MismatchMessage(path: string, template: Json, target: Json): string
  {
    "路径 '" + path + "' 的类型不匹配: 期望 " + TypeName(template) + ", 实际 " + TypeName(target)
  }

  function EmptyListMessage(path: string): string
  {
    "路径 '" + path + "' 的列表为空，但期望有内容"
  }

  function MissingKeyMessage(path: string, key: string): string
  {
    "路径 '" + path + "' 缺少必需的键 '" + key + "'"
  }

  function ItemPath(path: string, i: nat): string
  {
    path + "[" + NatToString(i) + "]"
  }

  function KeyPath(path: string, key: string): string
  {
    path + "." + key
  }

  /**
   * `check_structure(target, template, path)`: numbers match numbers, other values must have
   * the template's type, lists are checked element-wise against the template's first element
   * and dicts key by key. Every failure carries a message naming where it happened.
   */
  function CheckStructure(target: Json, template: Json, path: string): (r: Check)
    decreases template, 2, 0
    ensures IsNumber(template) && IsNumber(target) ==> r == Pass
    ensures !(IsNumber(template) && IsNumber(target)) && Kind(template) != Kind(target) ==>
      r == Fail(MismatchMessage(path, template, target))
    ensures template == JArray([]) && target.JArray? ==> r == Pass
    ensures template.JArray? && template.items != [] && target == JArray([]) ==> r == Fail(EmptyListMessage(path))
    ensures Kind(template) == Kind(target) && !template.JArray? && !template.JObject? ==> r == Pass
    ensures r.Fail? ==> r.message != []
  {
    if IsNumber(template) && IsNumber(target) then Pass
    else if Kind(template) != Kind(target) then Fail(MismatchMessage(path, template, target))
    else if template.JArray? then
      if template.items == [] then Pass
      else if target.items == [] then Fail(EmptyListMessage(path))
      else CheckItems(target.items, template, 0, path)
    else if template.JObject? then CheckKeys(target, template, 0, path)
    else Pass
  }

  /** The loop `for i, item in enumerate(target)` against `template[0]`, from index `i` on. */
  function CheckItems(items: seq<Json>, template: Json, i: nat, path: string): (r: Check)
    requires template.JArray? && template.items != [] && i <= |items|
    decreases template, 1, |items| - i
    ensures r.Fail? ==> r.message != []
  {
    if i == |items| then Pass
    else
      match CheckStructure(items[i], template.items[0], ItemPath(path, i))
      case Fail(m) => Fail(m)
      case Pass => CheckItems(items, template, i + 1, path)
  }

  /** The loop `for key in template` over a dict template, from its `k`-th key on. */
  function CheckKeys(target: Json, template: Json, k: nat, path: string): (r: Check)
    requires target.JObject? && template.JObject? && k <= |template.entries|
    decreases template, 1, |template.entries| - k
    ensures r.Fail? ==> r.message != []
  {
    if k == |template.entries| then Pass
    else
      var key := template.entries[k].0;
      match Lookup(target.entries, key)
      case None => Fail(MissingKeyMessage(path, key))
      case Some(value) =>
        match CheckStructure(value, template.entries[k].1, KeyPath(path, key))
        case Fail(m) => Fail(m)
        case Pass => CheckKeys(target, template, k + 1, path)
  }

  /** The list loop passes iff every remaining element passes against `template[0]`. */
  lemma {:induction false} CheckItemsAllPass(items: seq<Json>, template: Json, i: nat, path: string)
    requires template.JArray? && template.items != [] && i <= |items|
    ensures CheckItems(items, template, i, path).Pass? <==>
      forall j :: i <= j < |items| ==> CheckStructure(items[j], template.items[0], ItemPath(path, j)).Pass?
    decreases |items| - i
  {
    if i < |items| && CheckStructure(items[i], template.items[0], ItemPath(path, i)).Pass? {
      CheckItemsAllPass(items, template, i + 1, path);
    }
  }

  /** A failing list loop reports the failure of its first failing element. */
  lemma {:induction false} CheckItemsFirstFailure(items: seq<Json>, template: Json, i: nat, path: string) returns (j: nat)
    requires template.JArray? && template.items != [] && i <= |items|
    requires CheckItems(items, template, i, path).Fail?
    ensures i <= j < |items|
    ensures CheckItems(items, template, i, path) == CheckStructure(items[j], template.items[0], ItemPath(path, j))
    ensures forall j' :: i <= j' < j ==> CheckStructure(items[j'], template.items[0], ItemPath(path, j')).Pass?
    decreases |items| - i
  {
    if CheckStructure(items[i], template.items[0], ItemPath(path, i)).Pass? {
      j := CheckItemsFirstFailure(items, template, i + 1, path);
    } else {
      j := i;
    }
  }

  /**
   * A non-empty list target checked against a non-empty list template passes iff every element
   * passes against `template[0]`, and a failure is that of the first failing element.
   */
  lemma ListCheck(target: Json, template: Json, path: string)
    requires template.JArray? && template.items != [] && target.JArray? && target.items != []
    ensures CheckStructure(target, template, path).Pass? <==>
      forall j :: 0 <= j < |target.items| ==> CheckStructure(target.items[j], template.items[0], ItemPath(path, j)).Pass?
    ensures CheckStructure(target, template, path).Fail? ==>
      exists j :: 0 <= j < |target.items|
        && CheckStructure(target, template, path) == CheckStructure(target.items[j], template.items[0], ItemPath(path, j))
        && forall j' :: 0 <= j' < j ==> CheckStructure(target.items[j'], template.items[0], ItemPath(path, j')).Pass?
  {
    CheckItemsAllPass(target.items, template, 0, path);
    if CheckStructure(target, template, path).Fail? {
      var j := CheckItemsFirstFailure(target.items, template, 0, path);
    }
  }

  /** The template key `k` is present in the target and its value passes. */
  predicate KeyPasses(target: Json, template: Json, k: nat, path: string)
    requires target.JObject? && template.JObject? && k < |template.entries|
  {
    var key := template.entries[k].0;
    Lookup(target.entries, key).Some?
      && CheckStructure(Lookup(target.entries, key).value, template.entries[k].1, KeyPath(path, key)).Pass?
  }

  lemma {:induction false} CheckKeysAllPass(target: Json, template: Json, k: nat, path: string)
    requires target.JObject? && template.JObject? && k <= |template.entries|
    ensures CheckKeys(target, template, k, path).Pass? <==>
      forall k' :: k <= k' < |template.entries| ==> KeyPasses(target, template, k', path)
    decreases |template.entries| - k
  {
    if k < |template.entries| {
      CheckKeysStep(target, template, k, path);
      if KeyPasses(target, template, k, path) {
        CheckKeysAllPass(target, template, k + 1, path);
        assert (forall k' :: k <= k' < |template.entries| ==> KeyPasses(target, template, k', path))
          <==> (forall k' :: k + 1 <= k' < |template.entries| ==> KeyPasses(target, template, k', path));
      }
    }
  }

  /** One turn of the dict loop: it goes on exactly when key `k` passes. */
  lemma CheckKeysStep(target: Json, template: Json, k: nat, path: string)
    requires target.JObject? && template.JObject? && k < |template.entries|
    ensures CheckKeys(target, template, k, path).Pass? <==>
      KeyPasses(target, template, k, path) && CheckKeys(target, template, k + 1, path).Pass?
  {
  }

  /** A dict target passes iff every template key is present in it and its value passes. */
  lemma DictCheck(target: Json, template: Json, path: string)
    requires template.JObject? && target.JObject?
    ensures CheckStructure(target, template, path).Pass? <==>
      forall k :: 0 <= k < |template.entries| ==> KeyPasses(target, template, k, path)
  {
    CheckKeysAllPass(target, template, 0, path);
  }

  lemma {:induction false} CheckKeysIgnoresExtraKeys(t1: Json, t2: Json, template: Json, k: nat, path: string)
    requires t1.JObject? && t2.JObject? && template.JObject? && k <= |template.entries|
    requires forall k' :: 0 <= k' < |template.entries| ==>
      Lookup(t1.entries, template.entries[k'].0) == Lookup(t2.entries, template.entries[k'].0)
    ensures CheckKeys(t1, template, k, path) == CheckKeys(t2, template, k, path)
    decreases |template.entries| - k
  {
    if k < |template.entries| {
      var key := template.entries[k].0;
      assert Lookup(t1.entries, key) == Lookup(t2.entries, key);
      CheckKeysIgnoresExtraKeys(t1, t2, template, k + 1, path);
    }
  }

  /**
   * Keys the template does not mention never affect the verdict: two dict targets that agree
   * on the template's keys get the same result, whatever else they hold.
   */
  lemma ExtraKeysIrrelevant(t1: Json, t2: Json, template: Json, path: string)
    requires t1.JObject? && t2.JObject? && template.JObject?
    requires forall k :: 0 <= k < |template.entries| ==>
      Lookup(t1.entries, template.entries[k].0) == Lookup(t2.entries, template.entries[k].0)
    ensures CheckStructure(t1, template, path) == CheckStructure(t2, template, path)
  {
    CheckKeysIgnoresExtraKeys(t1, t2, template, 0, path);
  }

  // ---------------------------------------------------------------------------------------------
  // clean_json_string

  /**
   * One left-to-right pass of `re.sub(r'<think>.*?</think>', '', s, flags=re.DOTALL)`: each
   * `<think>` is cut together with the nearest `</think>` after it; a `<think>` with no closing
   * tag after it (and so every later one) is kept.
   */
  function RemoveThink(s: string): (r: string)
    ensures |r| <= |s|
    ensures |r| == |s| ==> r == s
    decreases |s|
  {
    match FindFrom(s, "<think>", 0)
    case None => s
    case Some(p) =>
      match FindFrom(s, "</think>", p + 7)
      case None => s
      case Some(q) => s[..p] + RemoveThink(s[q + 8..])
  }

  /** No `<think>` is followed, later on, by a `</think>`. */
  ghost predicate ThinkSpanFree(s: string)
  {
    forall i: nat, j: nat :: OccursAt(s, "<think>", i) && i + 7 <= j ==> !OccursAt(s, "</think>", j)
  }

  /** A pass that removes nothing leaves no complete span behind. */
  lemma UnchangedIsSpanFree(s: string)
    requires |RemoveThink(s)| == |s|
    ensures ThinkSpanFree(s)
  {
    match FindFrom(s, "<think>", 0)
    case None =>
    case Some(p) =>
      match FindFrom(s, "</think>", p + 7)
      case None =>
      case Some(q) =>
  }

  /** A pass leaves the text as it is exactly when no `<think>` has a `</think>` after it. */
  lemma RemoveThinkUnchangedIff(s: string)
    ensures RemoveThink(s) == s <==> ThinkSpanFree(s)
  {
    if RemoveThink(s) == s {
      UnchangedIsSpanFree(s);
    } else {
      var p := FindFrom(s, "<think>", 0).value;
      var q := FindFrom(s, "</think>", p + 7).value;
      assert OccursAt(s, "<think>", p) && p + 7 <= q && OccursAt(s, "</think>", q);
    }
  }

  /**
   * A pass over text that has a complete think block: the text before the first `<think>` is
   * kept, everything from there up to the first `</think>` after it is dropped, and the pass
   * goes on with what follows.
   */
  lemma RemoveThinkBlock(a: string, m: string, t: string)
    requires !Contains(a, "<think>") && !Contains(m, "</think>")
    ensures RemoveThink(a + "<think>" + m + "</think>" + t) == a + RemoveThink(t)
  {
    var s := a + "<think>" + m + "</think>" + t;
    assert [] + a + "<think>" + (m + "</think>" + t) == s;
    FirstTagAfter([], a, "<think>", m + "</think>" + t);
    FirstTagAfter(a + "<think>", m, "</think>", t);
    assert s[..|a|] == a;
    assert s[|a| + 7 + |m| + 8..] == t;
  }

  /** Searching from the end of `pre` finds `tag` right after `a` when `a` does not hold it. */
  lemma FirstTagAfter(pre: string, a: string, tag: string, rest: string)
    requires |tag| > 0 && forall i :: 1 <= i < |tag| ==> tag[i] != tag[0]
    requires !Contains(a, tag)
    ensures FindFrom(pre + a + tag + rest, tag, |pre|) == Some(|pre| + |a|)
  {
    var s := pre + a + tag + rest;
    var P := |pre| + |a|;
    SliceOfConcat(pre + a, tag, rest);
    assert s[|pre|..P] == a;
    forall k | |pre| <= k < P
      ensures !OccursAt(s, tag, k)
    {
      if k + |tag| <= P {
        ContainsIff(a, tag);
        assert !OccursAt(a, tag, k - |pre|);
        assert a[k - |pre|..k - |pre| + |tag|] == s[k..k + |tag|];
      } else {
        MismatchAt(s, tag, k, P - k);
      }
    }
    FoundAtFirst(s, tag, |pre|, P);
  }

  /** Repeats the pass until nothing changes. */
  function RemoveThinkAll(s: string): (r: string)
    ensures ThinkSpanFree(r)
    decreases |s|
  {
    var t := RemoveThink(s);
    if |t| == |s| then UnchangedIsSpanFree(s); s else RemoveThinkAll(t)
  }

  /** The start, no earlier than `lo`, of the run of whitespace ending at `c`. */
  function SpaceRunStart(s: string, lo: nat, c: nat): (g: nat)
    requires lo <= c <= |s|
    ensures lo <= g <= c && (g == lo || !IsSpace(s[g - 1]))
    ensures forall m :: g <= m < c ==> IsSpace(s[m])
    decreases c - lo
  {
    if c == lo || !IsSpace(s[c - 1]) then c else SpaceRunStart(s, lo, c - 1)
  }

  /**
   * One pass of `re.sub(opener + r'\s*(.*?)\s*```', r'\1', s, flags=re.DOTALL)`: a fenced
   * block is replaced by its body without the whitespace that surrounds it inside the fence.
   * An opener with no closing fence after it is kept, and so is the rest of the string.
   */
  function FenceSub(s: string, opener: string): (r: string)
    requires |opener| > 0
    decreases |s|
  {
    match FindFrom(s, opener, 0)
    case None => s
    case Some(p) =>
      var e := SpaceRunEnd(s, p + |opener|);
      match FindFrom(s, "```", e)
      case None => s
      case Some(c) => s[..p] + s[e..SpaceRunStart(s, e, c)] + FenceSub(s[c + 3..], opener)
  }

  /** `clean_json_string` as written: one think pass, the two fence passes, then `strip()`. */
  function CleanJsonString(s: string): (r: string)
    ensures r == [] || (!IsSpace(r[0]) && !IsSpace(r[|r| - 1]))
  {
    Strip(FenceSub(FenceSub(RemoveThink(s), "```json"), "```"))
  }

  /**
   * A think block can be spliced together out of the text around an inner one: the single
   * pass leaves a complete `<think></think>` in the cleaned reply.
   */
  lemma CleanJsonStringLeavesThinkSpan()
    ensures CleanJsonString("<thi<think></think>nk></think>") == "<think></think>"
    ensures !ThinkSpanFree(CleanJsonString("<thi<think></think>nk></think>"))
  {
    CleanSplicedInput();
    ThinkBlockNotSpanFree();
  }

  lemma CleanSplicedInput()
    ensures CleanJsonString("<thi<think></think>nk></think>") == "<think></think>"
  {
    SplicedThinkPass();
    var t := "<think></think>";
    FencesKeepThinkBlock();
    assert FenceSub(FenceSub(t, "```json"), "```") == t;
    StripPlain(t);
  }

  lemma ThinkBlockNotSpanFree()
    ensures !ThinkSpanFree("<think></think>")
  {
    var t := "<think></think>";
    assert OccursAt(t, "<think>", 0) && OccursAt(t, "</think>", 7);
  }

  lemma FencesKeepThinkBlock()
    ensures FenceSub("<think></think>", "```json") == "<think></think>"
    ensures FenceSub("<think></think>", "```") == "<think></think>"
  {
    var t := "<think></think>";
    assert NoChar(t, '`');
    NotFoundWithoutFirstChar(t, "```json", 0);
    NotFoundWithoutFirstChar(t, "```", 0);
  }

  lemma MismatchAt(s: string, sub: string, k: nat, m: nat)
    requires m < |sub| && k + m < |s| && s[k + m] != sub[m]
    ensures !OccursAt(s, sub, k)
  {
  }

  /** The think pass on the spliced input removes only the inner block. */
  lemma SplicedThinkPass()
    ensures RemoveThink("<thi<think></think>nk></think>") == "<think></think>"
  {
    SplicedInput();
    SplicedPass("<thi", "<think>" + "</think>", "nk>" + "</think>");
    SplicedText();
  }

  lemma SplicedPass(head: string, inner: string, tail: string)
    requires head == "<thi" && inner == "<think>" + "</think>" && tail == "nk>" + "</think>"
    ensures RemoveThink(head + inner + tail) == head + tail
  {
    var s := head + inner + tail;
    SplicedTags(head, inner, tail);
    SplicedSlices(head, inner, tail);
    RestHasNoThink();
  }

  lemma SplicedSlices(head: string, inner: string, tail: string)
    requires head == "<thi" && inner == "<think>" + "</think>" && tail == "nk>" + "</think>"
    ensures (head + inner + tail)[19..] == tail && (head + inner + tail)[..4] == head
    ensures tail == "nk></think>"
  {
    var s := head + inner + tail;
    assert |head + inner| == 19;
  }

  lemma SliceOfConcat(a: string, b: string, c: string)
    ensures (a + b + c)[|a|..|a| + |b|] == b
  {
  }

  lemma SplicedTags(head: string, inner: string, tail: string)
    requires head == "<thi" && inner == "<think>" + "</think>"
    ensures FindFrom(head + inner + tail, "<think>", 0) == Some(4)
    ensures FindFrom(head + inner + tail, "</think>", 11) == Some(11)
  {
    var s := head + inner + tail;
    assert s[4] == '<' && s[1] == 't' && s[2] == 'h' && s[3] == 'i';
    MismatchAt(s, "<think>", 0, 4);
    MismatchAt(s, "<think>", 1, 0);
    MismatchAt(s, "<think>", 2, 0);
    MismatchAt(s, "<think>", 3, 0);
    assert s == head + "<think>" + ("</think>" + tail);
    SliceOfConcat(head, "<think>", "</think>" + tail);
    FoundAtFirst(s, "<think>", 0, 4);
    assert s == (head + "<think>") + "</think>" + tail;
    SliceOfConcat(head + "<think>", "</think>", tail);
    FoundAtFirst(s, "</think>", 11, 11);
  }

  lemma SplicedInput()
    ensures "<thi" + ("<think>" + "</think>") + ("nk>" + "</think>") == "<thi<think></think>nk></think>"
  {
  }

  lemma SplicedText()
    ensures "<thi" + ("nk>" + "</think>") == "<think></think>"
  {
  }

  lemma RestHasNoThink()
    ensures RemoveThink("nk></think>") == "nk></think>"
  {
    var r := "nk></think>";
    forall k: nat | true
      ensures !OccursAt(r, "<think>", k)
    {
      if k + 7 <= |r| {
        if k == 3 {
          MismatchAt(r, "<think>", k, 1);
        } else {
          MismatchAt(r, "<think>", k, 0);
        }
      }
    }
  }

  /** A slice of a span-free string is span-free. */
  lemma SpanFreeSlice(s: string, lo: nat, hi: nat)
    requires lo <= hi <= |s| && ThinkSpanFree(s)
    ensures ThinkSpanFree(s[lo..hi])
  {
    forall i: nat, j: nat | OccursAt(s[lo..hi], "<think>", i) && i + 7 <= j
      ensures !OccursAt(s[lo..hi], "</think>", j)
    {
      OccursInSlice(s, "<think>", lo, hi, i);
      if OccursAt(s[lo..hi], "</think>", j) {
        OccursInSlice(s, "</think>", lo, hi, j);
        assert false;
      }
    }
  }

  /**
   * `clean_json_string` as intended: think blocks are removed until none is left, also after
   * the fence passes (which can join the two halves of one), so the result never holds a
   * complete think block.
   */
  function CleanJsonStringFixed(s: string): (r: string)
    ensures ThinkSpanFree(r)
    ensures r == [] || (!IsSpace(r[0]) && !IsSpace(r[|r| - 1]))
  {
    var t := RemoveThinkAll(FenceSub(FenceSub(RemoveThinkAll(s), "```json"), "```"));
    SpanFreeSlice(t, StripStart(t), StripEnd(t, StripStart(t)));
    Strip(t)
  }

  // Round trip through a fenced reply.

  predicate NoChar(s: string, c: char)
  {
    forall i :: 0 <= i < |s| ==> s[i] != c
  }

  lemma NotFoundWithoutFirstChar(s: string, sub: string, from: nat)
    requires |sub| > 0 && NoChar(s, sub[0])
    ensures FindFrom(s, sub, from).None?
  {
  }

  lemma {:induction false} FoundAtFirst(s: string, sub: string, from: nat, c: nat)
    requires from <= c && OccursAt(s, sub, c)
    requires forall k :: from <= k < c ==> !OccursAt(s, sub, k)
    ensures FindFrom(s, sub, from) == Some(c)
    decreases c - from
  {
    if from < c {
      FoundAtFirst(s, sub, from + 1, c);
    }
  }

  /** A payload without `<` or backticks and without surrounding whitespace. */
  predicate PlainPayload(x: string)
  {
    NoChar(x, '<') && NoChar(x, '`') && (x == [] || (!IsSpace(x[0]) && !IsSpace(x[|x| - 1])))
  }

  lemma FencedPayloadUnfenced(x: string)
    requires PlainPayload(x)
    ensures FenceSub("```json\n" + x + "\n```", "```json") == x
  {
    var w := "```json\n" + x + "\n```";
    var c := 9 + |x|;
    var e := if x == [] then 9 else 8;
    FenceOpened(x);
    ClosingFenceFound(x, e);
    FenceBody(x, e);
    assert w[c + 3..] == [];
    assert FenceSub([], "```json") == [];
  }

  lemma FenceOpened(x: string)
    requires PlainPayload(x)
    ensures var w := "```json\n" + x + "\n```";
      && FindFrom(w, "```json", 0) == Some(0)
      && SpaceRunEnd(w, 7) == if x == [] then 9 else 8
  {
    var w := "```json\n" + x + "\n```";
    assert OccursAt(w, "```json", 0);
    assert IsSpace(w[7]);
    if x == [] {
      assert IsSpace(w[8]) && !IsSpace(w[9]);
    } else {
      assert w[8] == x[0];
    }
  }

  lemma FenceBody(x: string, e: nat)
    requires PlainPayload(x) && e == (if x == [] then 9 else 8)
    ensures var w := "```json\n" + x + "\n```";
      && SpaceRunStart(w, e, 9 + |x|) == e + |x|
      && w[e..e + |x|] == x
  {
    var w := "```json\n" + x + "\n```";
    var c := 9 + |x|;
    if x != [] {
      assert w[c - 1] == '\n' && w[c - 2] == x[|x| - 1];
    }
    assert w[8..8 + |x|] == x;
  }

  lemma ClosingFenceFound(x: string, e: nat)
    requires PlainPayload(x) && e == (if x == [] then 9 else 8)
    ensures FindFrom("```json\n" + x + "\n```", "```", e) == Some(9 + |x|)
  {
    var w := "```json\n" + x + "\n```";
    var c := 9 + |x|;
    assert OccursAt(w, "```", c) by {
      assert w[c..c + 3] == "```";
    }
    forall k | e <= k < c
      ensures !OccursAt(w, "```", k)
    {
      if k < 8 + |x| {
        assert w[k] == x[k - 8];
      } else {
        assert w[k] == '\n';
      }
      MismatchAt(w, "```", k, 0);
    }
    FoundAtFirst(w, "```", e, c);
  }

  lemma StripPlain(x: string)
    requires x == [] || (!IsSpace(x[0]) && !IsSpace(x[|x| - 1]))
    ensures Strip(x) == x
  {
    if x != [] {
      assert StripStart(x) == 0;
      assert StripEnd(x, 0) == |x|;
    }
  }

  /**
   * A reply that is exactly a ```` ```json ```` fenced block cleans to its payload: the fence
   * lines and the newlines inside the fence go, the payload stays intact.
   */
  lemma CleanFencedReply(x: string)
    requires PlainPayload(x)
    ensures CleanJsonString("```json\n" + x + "\n```") == x
    ensures CleanJsonStringFixed("```json\n" + x + "\n```") == x
  {
    var w := "```json\n" + x + "\n```";
    assert NoChar(w, '<') by {
      forall i | 0 <= i < |w|
        ensures w[i] != '<'
      {
        if 8 <= i < 8 + |x| {
          assert w[i] == x[i - 8];
        }
      }
    }
    NotFoundWithoutFirstChar(w, "<think>", 0);
    assert RemoveThink(w) == w;
    assert RemoveThinkAll(w) == w;
    FencedPayloadUnfenced(x);
    NotFoundWithoutFirstChar(x, "```", 0);
    assert FenceSub(x, "```") == x;
    NotFoundWithoutFirstChar(x, "<think>", 0);
    assert RemoveThink(x) == x;
    assert RemoveThinkAll(x) == x;
    StripPlain(x);
  }

  // ---------------------------------------------------------------------------------------------
  // check_json

  /** The `schema` argument: a JSON string still to be parsed, or an already parsed value. */
  datatype Schema = SchemaText(text: string) | SchemaValue(value: Json)

  /** `json_str[:100]`. */
  function Take(s: string, n: nat): (r: string)
    ensures |r| <= n && StartsWith(s, r)
  {
    if |s| <= n then s else s[..n]
  }

  /**
   * `check_json(json_str, schema)`: clean the reply, parse it (`parse` is `json.loads`,
   * returning the decoder's message on failure), resolve the schema, then check the structure.
   * The cleaning step is the corrected `clean_json_string` (see README, Findings).
   */
  function CheckJson(jsonStr: string, schema: Schema, parse: string -> Result<Json, string>): (r: (bool, string))
    ensures r.0 ==> r.1 == ""
    ensures !r.0 ==> r.1 != ""
    ensures parse(CleanJsonStringFixed(jsonStr)).Err? ==> !r.0 && StartsWith(r.1, "JSON 解析错误: ")
    ensures parse(CleanJsonStringFixed(jsonStr)).Ok? && schema.SchemaValue? && (schema.value.JArray? || schema.value.JObject?) ==>
      r.0 == CheckStructure(parse(CleanJsonStringFixed(jsonStr)).value, schema.value, "").Pass?
    ensures schema.SchemaValue? && !schema.value.JArray? && !schema.value.JObject? ==> !r.0
  {
    var cleaned := CleanJsonStringFixed(jsonStr);
    match parse(cleaned)
    case Err(e) =>
      var msg := "JSON 解析错误: " + e + "\n内容: " + Take(cleaned, 100) + "...";
      assert msg == "JSON 解析错误: " + (e + "\n内容: " + Take(cleaned, 100) + "...");
      (false, msg)
    case Ok(data) =>
      var template :=
        match schema
        case SchemaText(t) => parse(t)
        case SchemaValue(v) =>
          if v.JArray? || v.JObject? then Ok(v) else Err("");
      if schema.SchemaValue? && template.Err? then (false, "schema 必须是 JSON 字符串、字典或列表对象")
      else if template.Err? then (false, "schema 解析错误: " + template.error)
      else
        match CheckStructure(data, template.value, "")
        case Pass => (true, "")
        case Fail(m) => (false, m)
  }
}

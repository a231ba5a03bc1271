/**
 * The HyperFlex builder: parse the selector, create the element, then apply a
 * fixed sequence of updates to it — id, selector classes, attributes,
 * properties, parameter classes, styles, text, child nodes.
 *
 * The specification is the pipeline of `Step`s run on element values
 * (`RunSteps`, `Created`, `Build`); the class `HyperFlex` is the builder
 * object of the source, whose methods update its `element` field step by step
 * and are proved to follow the pipeline.
 */
module Builder {
  import opened Wrappers
  import opened QuerySelector
  import opened Dom

  /** One key of a parameter object as `for…in` enumerates it: its key, its
      value, and whether it is an own property (inherited enumerable keys are
      enumerated too, and skipped by `hasOwnProperty`). */
  datatype Entry = Entry(key: string, value: JsValue, own: bool)

  /** An argument that the source asserts to be an object: the object's
      enumerated keys in `for…in` order, or any value that is not an object. */
  datatype ObjectArg = Obj(entries: seq<Entry>) | NonObject

  /** The parameter bag, already built by the caller. */
  datatype HyperFlexParams = HyperFlexParams(
    attributes: ObjectArg,
    properties: ObjectArg,
    classList: seq<string>,
    styles: ObjectArg,
    text: string,
    childNodes: seq<Node>)

  /** What a build can throw: the selector's errors, the class list's, and the
      failed assertion that `attributes`, `properties` or `styles` is an object
      (named by the argument). */
  datatype BuildError =
    | SelectorError(parse: ParseError)
    | ClassTokenError(token: TokenError)
    | NotAnObject(argument: string)

  /** Whether one enumerated key is written: it must be an own key and, where
      null is a skip mark, not null. */
  predicate Writes(e: Entry, skipNull: bool) {
    e.own && !(skipNull && e.value == Null)
  }

  /** The map after the `for…in` loop has written `entries` in order into `m`. */
  function WriteEntries(m: map<string, JsValue>, entries: seq<Entry>, skipNull: bool): map<string, JsValue>
    decreases |entries|
  {
    if entries == [] then m
    else
      var last := entries[|entries| - 1];
      var before := WriteEntries(m, entries[..|entries| - 1], skipNull);
      if Writes(last, skipNull) then before[last.key := last.value] else before
  }

  predicate WrittenAt(entries: seq<Entry>, i: int, k: string, skipNull: bool) {
    0 <= i < |entries| && entries[i].key == k && Writes(entries[i], skipNull)
  }

  predicate LastWrittenAt(entries: seq<Entry>, i: int, k: string, skipNull: bool) {
    WrittenAt(entries, i, k, skipNull) && forall j :: i < j < |entries| ==> !WrittenAt(entries, j, k, skipNull)
  }

  /** Key by key, the loop leaves the value of the last entry that writes the
      key; a key no entry writes keeps what it had. */
  lemma {:induction false} WriteEntriesAt(m: map<string, JsValue>, entries: seq<Entry>, skipNull: bool, k: string)
    ensures k in WriteEntries(m, entries, skipNull) <==> k in m || exists i :: WrittenAt(entries, i, k, skipNull)
    ensures forall i :: LastWrittenAt(entries, i, k, skipNull) ==> WriteEntries(m, entries, skipNull)[k] == entries[i].value
    ensures (forall i :: !WrittenAt(entries, i, k, skipNull)) && k in m ==> WriteEntries(m, entries, skipNull)[k] == m[k]
    decreases |entries|
  {
    if entries != [] {
      var n := |entries| - 1;
      var init := entries[..n];
      WriteEntriesAt(m, init, skipNull, k);
      forall i ensures WrittenAt(init, i, k, skipNull) <==> WrittenAt(entries, i, k, skipNull) && i < n {
        if 0 <= i < n { assert init[i] == entries[i]; }
      }
      if WrittenAt(entries, n, k, skipNull) {
        forall i | LastWrittenAt(entries, i, k, skipNull) ensures i == n {
        }
      } else {
        forall i | LastWrittenAt(entries, i, k, skipNull) ensures LastWrittenAt(init, i, k, skipNull) {
        }
      }
    }
  }

  /** The updates, in the order `createHtmlElement` and `_setParams` make them. */
  datatype Step =
    | IdStep(id: string)
    | ClassListStep(names: seq<string>)
    | AttributesStep(attributes: ObjectArg)
    | PropertiesStep(properties: ObjectArg)
    | StylesStep(styles: ObjectArg)
    | TextStep(text: string)
    | ChildNodesStep(nodes: seq<Node>)

  /** One update on an element value, or the error it throws. */
  function ApplyStep(e: Element, s: Step): Result<Element, BuildError> {
    match s
    case IdStep(id) =>
      Ok(if id != "" then e.(id := id) else e)
    case ClassListStep(names) =>
      if names == [] then Ok(e)
      else (
        match ClassListAdd(e.classList, names)
        case Ok(list) => Ok(e.(classList := list))
        case Err(x) => Err(ClassTokenError(x)))
    case AttributesStep(arg) =>
      if arg.NonObject? then Err(NotAnObject("attributes"))
      else Ok(e.(attributes := WriteEntries(e.attributes, arg.entries, true)))
    case PropertiesStep(arg) =>
      if arg.NonObject? then Err(NotAnObject("properties"))
      else Ok(e.(properties := WriteEntries(e.properties, arg.entries, true)))
    case StylesStep(arg) =>
      if arg.NonObject? then Err(NotAnObject("styles"))
      else Ok(e.(style := WriteEntries(e.style, arg.entries, false)))
    case TextStep(text) =>
      Ok(if text != "" then e.(childNodes := e.childNodes + [TextNode(text)]) else e)
    case ChildNodesStep(nodes) =>
      Ok(e.(childNodes := e.childNodes + nodes))
  }

  /** The element after one update and the error, if any: a step that throws
      leaves the element as it was. */
  function Effect(e: Element, s: Step): (Element, Option<BuildError>) {
    match ApplyStep(e, s)
    case Ok(next) => (next, None)
    case Err(x) => (e, Some(x))
  }

  /** Runs the steps in order and stops at the first that throws, keeping the
      updates made before it. */
  function RunSteps(e: Element, steps: seq<Step>): (Element, Option<BuildError>)
    decreases |steps|
  {
    if steps == [] then (e, None)
    else
      var (next, err) := Effect(e, steps[0]);
      if err.Some? then (next, err) else RunSteps(next, steps[1..])
  }

  /** Running two lists of steps one after the other is running their
      concatenation. */
  lemma {:induction false} RunStepsConcat(e: Element, a: seq<Step>, b: seq<Step>)
    ensures RunSteps(e, a + b) ==
      (var (mid, err) := RunSteps(e, a); if err.Some? then (mid, err) else RunSteps(mid, b))
    decreases |a|
  {
    if a == [] {
      assert a + b == b;
    } else {
      assert (a + b)[0] == a[0] && (a + b)[1..] == a[1..] + b;
      var (next, err) := Effect(e, a[0]);
      if err.None? {
        RunStepsConcat(next, a[1..], b);
      }
    }
  }

  /** `_setParams`: attributes, properties, classes, styles, text, children. */
  function ParamSteps(p: HyperFlexParams): seq<Step> {
    [AttributesStep(p.attributes), PropertiesStep(p.properties), ClassListStep(p.classList),
     StylesStep(p.styles), TextStep(p.text), ChildNodesStep(p.childNodes)]
  }

  /** `createHtmlElement` after the element is created: the selector's id and
      classes, then the parameters. */
  function CreateSteps(d: Descriptor, p: HyperFlexParams): seq<Step> {
    [IdStep(d.id), ClassListStep(d.classList)] + ParamSteps(p)
  }

  /** The builder's element and the error after `createHtmlElement`, from the
      element it held before: a selector that does not parse throws before any
      element is created. */
  function Created(querySelector: string, p: HyperFlexParams, prior: Option<Element>): (Option<Element>, Option<BuildError>) {
    match ParseQuerySelector(querySelector)
    case Err(x) => (prior, Some(SelectorError(x)))
    case Ok(d) =>
      var (e, err) := RunSteps(CreateElement(d.tag), CreateSteps(d, p));
      (Some(e), err)
  }

  /** `HyperFlex.html`: the finished element, or what the build throws. */
  function Build(querySelector: string, p: HyperFlexParams): Result<Element, BuildError> {
    match ParseQuerySelector(querySelector)
    case Err(x) => Err(SelectorError(x))
    case Ok(d) =>
      match RunSteps(CreateElement(d.tag), CreateSteps(d, p))
      case (e, None) => Ok(e)
      case (_, Some(x)) => Err(x)
  }

  /** Every token of a class list is accepted by `classList.add`. */
  predicate TokensAccepted(names: seq<string>) {
    forall i :: 0 <= i < |names| ==> ValidToken(names[i])
  }

  /** The element a successful build yields, field by field: each update
      touches one field only, so the order of steps matters only within a field. */
  function Expected(d: Descriptor, p: HyperFlexParams): Element
    requires p.attributes.Obj? && p.properties.Obj? && p.styles.Obj?
  {
    Element(
      d.tag,
      d.id,
      WriteEntries(map[], p.attributes.entries, true),
      WriteEntries(map[], p.properties.entries, true),
      AddTokens([], d.classList + p.classList),
      WriteEntries(map[], p.styles.entries, false),
      (if p.text != "" then [TextNode(p.text)] else []) + p.childNodes)
  }

  /** Running a non-empty list of steps: the first step, then the rest unless it threw. */
  lemma RunStepsCons(e: Element, s: Step, rest: seq<Step>)
    ensures RunSteps(e, [s] + rest) ==
      (var (next, err) := Effect(e, s); if err.Some? then (next, err) else RunSteps(next, rest))
  {
    assert ([s] + rest)[0] == s && ([s] + rest)[1..] == rest;
  }

  /** The two selector steps on a fresh element. */
  lemma SelectorStepsWalk(d: Descriptor)
    ensures var (e, err) := RunSteps(CreateElement(d.tag), [IdStep(d.id), ClassListStep(d.classList)]);
      (err.None? <==> TokensAccepted(d.classList))
      && (err.None? ==> e == CreateElement(d.tag).(id := d.id, classList := AddTokens([], d.classList)))
  {
    var e0 := CreateElement(d.tag);
    var e1 := e0.(id := d.id);
    assert Effect(e0, IdStep(d.id)) == (e1, None);
    RunStepsCons(e0, IdStep(d.id), [ClassListStep(d.classList)]);
    RunStepsCons(e1, ClassListStep(d.classList), []);
  }

  /** The first three parameter steps: attributes, properties, classes. */
  lemma ParamStepsWalkA(e: Element, p: HyperFlexParams)
    ensures var (r, err) := RunSteps(e, [AttributesStep(p.attributes), PropertiesStep(p.properties), ClassListStep(p.classList)]);
      (err.None? <==> p.attributes.Obj? && p.properties.Obj? && TokensAccepted(p.classList))
      && (err.None? ==> r == e.(attributes := WriteEntries(e.attributes, p.attributes.entries, true),
                              properties := WriteEntries(e.properties, p.properties.entries, true),
                              classList := AddTokens(e.classList, p.classList)))
  {
    var s1, s2, s3 := AttributesStep(p.attributes), PropertiesStep(p.properties), ClassListStep(p.classList);
    RunStepsCons(e, s1, [s2, s3]);
    if p.attributes.Obj? {
      var e1 := Effect(e, s1).0;
      RunStepsCons(e1, s2, [s3]);
      if p.properties.Obj? {
        var e2 := Effect(e1, s2).0;
        RunStepsCons(e2, s3, []);
      }
    }
  }

  /** The last three parameter steps: styles, text, children. */
  lemma ParamStepsWalkB(e: Element, p: HyperFlexParams)
    ensures var (r, err) := RunSteps(e, [StylesStep(p.styles), TextStep(p.text), ChildNodesStep(p.childNodes)]);
      (err.None? <==> p.styles.Obj?)
      && (err.None? ==> r == e.(style := WriteEntries(e.style, p.styles.entries, false),
                              childNodes := e.childNodes + (if p.text != "" then [TextNode(p.text)] else []) + p.childNodes))
  {
    var s1, s2, s3 := StylesStep(p.styles), TextStep(p.text), ChildNodesStep(p.childNodes);
    RunStepsCons(e, s1, [s2, s3]);
    if p.styles.Obj? {
      var e1 := Effect(e, s1).0;
      RunStepsCons(e1, s2, [s3]);
      var e2 := Effect(e1, s2).0;
      RunStepsCons(e2, s3, []);
      if p.text == "" {
        assert e.childNodes + [] == e.childNodes;
      }
    }
  }

  /** `_setParams` as a whole. */
  lemma ParamStepsWalk(e: Element, p: HyperFlexParams)
    ensures var (r, err) := RunSteps(e, ParamSteps(p));
      (err.None? <==> p.attributes.Obj? && p.properties.Obj? && TokensAccepted(p.classList) && p.styles.Obj?)
      && (err.None? ==> r == e.(attributes := WriteEntries(e.attributes, p.attributes.entries, true),
                              properties := WriteEntries(e.properties, p.properties.entries, true),
                              classList := AddTokens(e.classList, p.classList),
                              style := WriteEntries(e.style, p.styles.entries, false),
                              childNodes := e.childNodes + (if p.text != "" then [TextNode(p.text)] else []) + p.childNodes))
  {
    var a := [AttributesStep(p.attributes), PropertiesStep(p.properties), ClassListStep(p.classList)];
    var b := [StylesStep(p.styles), TextStep(p.text), ChildNodesStep(p.childNodes)];
    assert ParamSteps(p) == a + b;
    RunStepsConcat(e, a, b);
    ParamStepsWalkA(e, p);
    var (mid, err) := RunSteps(e, a);
    if err.None? {
      ParamStepsWalkB(mid, p);
    }
  }

  /** A build whose selector parses: the steps succeed exactly when every class
      token is accepted and attributes, properties and styles are objects, and
      then yield the `Expected` element. */
  lemma BuildWalk(d: Descriptor, p: HyperFlexParams)
    ensures var (e, err) := RunSteps(CreateElement(d.tag), CreateSteps(d, p));
      (err.None? <==> TokensAccepted(d.classList) && p.attributes.Obj? && p.properties.Obj? && TokensAccepted(p.classList) && p.styles.Obj?)
      && (err.None? ==> e == Expected(d, p))
  {
    var a := [IdStep(d.id), ClassListStep(d.classList)];
    RunStepsConcat(CreateElement(d.tag), a, ParamSteps(p));
    SelectorStepsWalk(d);
    var (mid, err) := RunSteps(CreateElement(d.tag), a);
    if err.None? {
      ParamStepsWalk(mid, p);
      AddTokensConcat([], d.classList, p.classList);
    }
  }

  /** A build succeeds exactly when the selector parses, every class token is
      accepted, and attributes, properties and styles are objects. */
  lemma BuildOkIff(querySelector: string, p: HyperFlexParams)
    ensures Build(querySelector, p).Ok? <==>
      ParseQuerySelector(querySelector).Ok? && TokensAccepted(ParseQuerySelector(querySelector).value.classList)
      && p.attributes.Obj? && p.properties.Obj? && TokensAccepted(p.classList) && p.styles.Obj?
  {
    if ParseQuerySelector(querySelector).Ok? {
      BuildWalk(ParseQuerySelector(querySelector).value, p);
    }
  }

  /** A successful build yields the `Expected` element: the pipeline of steps
      agrees with the field-by-field description. */
  lemma BuildSucceeds(querySelector: string, p: HyperFlexParams)
    requires Build(querySelector, p).Ok?
    ensures ParseQuerySelector(querySelector).Ok?
    ensures p.attributes.Obj? && p.properties.Obj? && p.styles.Obj?
    ensures Build(querySelector, p).value == Expected(ParseQuerySelector(querySelector).value, p)
  {
    if ParseQuerySelector(querySelector).Ok? {
      BuildWalk(ParseQuerySelector(querySelector).value, p);
    }
  }

  /** The element's tag is the selector's tag, and its id the selector's id
      ("" when the selector has none). */
  lemma BuildTagAndId(querySelector: string, p: HyperFlexParams)
    requires Build(querySelector, p).Ok?
    ensures ParseQuerySelector(querySelector).Ok?
    ensures Build(querySelector, p).value.tag == ParseQuerySelector(querySelector).value.tag
    ensures Build(querySelector, p).value.id == ParseQuerySelector(querySelector).value.id
  {
    BuildSucceeds(querySelector, p);
  }

  /** The class list holds each class of the selector and of the parameters
      once, the selector's first; with no class repeated it is exactly the
      selector's classes followed by the parameters'. */
  lemma BuildClassList(querySelector: string, p: HyperFlexParams)
    requires Build(querySelector, p).Ok?
    ensures ParseQuerySelector(querySelector).Ok?
    ensures var classes, fromSelector := Build(querySelector, p).value.classList, ParseQuerySelector(querySelector).value.classList;
      NoDuplicates(classes)
      && (forall t :: t in classes <==> t in fromSelector || t in p.classList)
      && (NoDuplicates(fromSelector + p.classList) ==> classes == fromSelector + p.classList)
  {
    BuildSucceeds(querySelector, p);
    var d := ParseQuerySelector(querySelector).value;
    if NoDuplicates(d.classList + p.classList) {
      AddTokensDistinct([], d.classList + p.classList);
      assert [] + (d.classList + p.classList) == d.classList + p.classList;
    }
  }

  /** Attribute `k` is set exactly when some own, non-null entry has key `k`,
      and then to the value of the last such entry: null entries are skipped. */
  lemma BuildAttributes(querySelector: string, p: HyperFlexParams, k: string)
    requires Build(querySelector, p).Ok?
    ensures p.attributes.Obj?
    ensures var attrs, entries := Build(querySelector, p).value.attributes, p.attributes.entries;
      (k in attrs <==> exists i :: WrittenAt(entries, i, k, true))
      && forall i :: LastWrittenAt(entries, i, k, true) ==> attrs[k] == entries[i].value
  {
    BuildSucceeds(querySelector, p);
    WriteEntriesAt(map[], p.attributes.entries, true, k);
  }

  /** Property `k` is assigned exactly when some own, non-null entry has key
      `k`, and then the value of the last such entry. */
  lemma BuildProperties(querySelector: string, p: HyperFlexParams, k: string)
    requires Build(querySelector, p).Ok?
    ensures p.properties.Obj?
    ensures var props, entries := Build(querySelector, p).value.properties, p.properties.entries;
      (k in props <==> exists i :: WrittenAt(entries, i, k, true))
      && forall i :: LastWrittenAt(entries, i, k, true) ==> props[k] == entries[i].value
  {
    BuildSucceeds(querySelector, p);
    WriteEntriesAt(map[], p.properties.entries, true, k);
  }

  /** Style `k` is set exactly when some own entry has key `k`, null or not,
      and then to the value of the last such entry. */
  lemma BuildStyles(querySelector: string, p: HyperFlexParams, k: string)
    requires Build(querySelector, p).Ok?
    ensures p.styles.Obj?
    ensures var style, entries := Build(querySelector, p).value.style, p.styles.entries;
      (k in style <==> exists i :: 0 <= i < |entries| && entries[i].key == k && entries[i].own)
      && forall i :: LastWrittenAt(entries, i, k, false) ==> style[k] == entries[i].value
  {
    BuildSucceeds(querySelector, p);
    WriteEntriesAt(map[], p.styles.entries, false, k);
  }

  /** The children are one text node when the text is not empty, then the
      given child nodes in their order. */
  lemma BuildChildNodes(querySelector: string, p: HyperFlexParams)
    requires Build(querySelector, p).Ok?
    ensures var children := Build(querySelector, p).value.childNodes;
      |children| == (if p.text != "" then 1 else 0) + |p.childNodes|
      && (p.text != "" ==> children[0] == TextNode(p.text))
      && children[|children| - |p.childNodes|..] == p.childNodes
  {
    BuildSucceeds(querySelector, p);
  }

  /** Entries that are all null write nothing where null is a skip mark. */
  lemma {:induction false} NullEntriesWriteNothing(m: map<string, JsValue>, entries: seq<Entry>)
    requires forall i :: 0 <= i < |entries| ==> entries[i].value == Null
    ensures WriteEntries(m, entries, true) == m
    decreases |entries|
  {
    if entries != [] {
      NullEntriesWriteNothing(m, entries[..|entries| - 1]);
    }
  }

  /** Attributes and properties that are all null leave the element unchanged. */
  lemma NullSkipLeavesElement(e: Element, entries: seq<Entry>)
    requires forall i :: 0 <= i < |entries| ==> entries[i].value == Null
    ensures ApplyStep(e, AttributesStep(Obj(entries))) == Ok(e)
    ensures ApplyStep(e, PropertiesStep(Obj(entries))) == Ok(e)
  {
    NullEntriesWriteNothing(e.attributes, entries);
    NullEntriesWriteNothing(e.properties, entries);
  }

  /** `attributes: {href: null}` sets no `href`; `{href: "x"}` sets it to "x". */
  lemma HrefExample(querySelector: string, p: HyperFlexParams)
    requires Build(querySelector, p).Ok?
    ensures p.attributes == Obj([Entry("href", Null, true)]) ==> "href" !in Build(querySelector, p).value.attributes
    ensures p.attributes == Obj([Entry("href", Str("x"), true)]) ==> "href" in Build(querySelector, p).value.attributes && Build(querySelector, p).value.attributes["href"] == Str("x")
  {
    BuildAttributes(querySelector, p, "href");
    if p.attributes == Obj([Entry("href", Str("x"), true)]) {
      assert LastWrittenAt(p.attributes.entries, 0, "href", true);
    }
  }

  lemma ParseSpanC(querySelector: string)
    requires querySelector == "span.c"
    ensures ParseQuerySelector(querySelector) == Ok(Descriptor("span", "", ["c"]))
  {
    var d := Descriptor("span", "", ["c"]);
    assert Format(d) == querySelector;
    ParseFormat(d);
  }

  lemma SpanClassTokens()
    ensures TokensAccepted(["c"]) && TokensAccepted(["a", "b"]) && NoDuplicates(["c"] + ["a", "b"])
  {
    assert ValidToken("c") && ValidToken("a") && ValidToken("b");
  }

  /** Selector "span.c" with parameter classes ["a", "b"] gives the classes
      c, a, b in that order. */
  lemma SpanClassExample(querySelector: string, p: HyperFlexParams)
    requires querySelector == "span.c"
    requires p.classList == ["a", "b"] && p.attributes.Obj? && p.properties.Obj? && p.styles.Obj?
    ensures Build(querySelector, p).Ok? && Build(querySelector, p).value.classList == ["c", "a", "b"]
  {
    ParseSpanC(querySelector);
    SpanClassTokens();
    BuildOkIff(querySelector, p);
    BuildClassList(querySelector, p);
  }

  /** The builder object of the source. */
  class HyperFlex {
    /** The selector, a private field in the source. */
    const querySelector: string
    const params: HyperFlexParams
    /** `_element`: none until `CreateHtmlElement`. */
    var element: Option<Element>

    constructor (querySelector: string, params: HyperFlexParams)
      ensures this.querySelector == querySelector && this.params == params
      ensures element == None
    {
      this.querySelector := querySelector;
      this.params := params;
      element := None;
    }

    /** `createHtmlElement`: parse, create, then run the steps; on a throw the
        element keeps the updates made before it. */
    method CreateHtmlElement() returns (err: Option<BuildError>)
      modifies this
      ensures (element, err) == Created(querySelector, params, old(element))
    {
      var parsed := ParseQuerySelector(querySelector);
      if parsed.Err? {
        return Some(SelectorError(parsed.error));
      }
      var d := parsed.value;
      element := Some(CreateElement(d.tag));
      ghost var e0 := element.value;
      assert CreateSteps(d, params) == [IdStep(d.id)] + ([ClassListStep(d.classList)] + ParamSteps(params));
      RunStepsCons(e0, IdStep(d.id), [ClassListStep(d.classList)] + ParamSteps(params));
      SetId(d.id);
      ghost var e1 := element.value;
      RunStepsCons(e1, ClassListStep(d.classList), ParamSteps(params));
      err := SetClassList(d.classList);
      if err.Some? {
        return;
      }
      err := SetParams();
    }

    /** `_setId`: sets the id when it is not empty. */
    method SetId(id: string)
      requires element.Some?
      modifies this
      ensures element.Some? && Effect(old(element).value, IdStep(id)) == (element.value, None)
    {
      if id != "" {
        element := Some(element.value.(id := id));
      }
    }

    /** `_setParams`: the six parameter steps in order, stopping at a throw. */
    method SetParams() returns (err: Option<BuildError>)
      requires element.Some?
      modifies this
      ensures element.Some? && RunSteps(old(element).value, ParamSteps(params)) == (element.value, err)
    {
      ghost var e0 := element.value;
      ghost var s1, s2, s3 := AttributesStep(params.attributes), PropertiesStep(params.properties), ClassListStep(params.classList);
      ghost var s4, s5, s6 := StylesStep(params.styles), TextStep(params.text), ChildNodesStep(params.childNodes);
      ghost var t3 := [s4, s5, s6];
      ghost var t5 := [s2, s3] + t3;
      assert ParamSteps(params) == [s1] + t5;
      RunStepsCons(e0, s1, t5);
      err := SetAttributes(params.attributes);
      if err.Some? {
        return;
      }
      ghost var e1 := element.value;
      assert t5 == [s2] + ([s3] + t3);
      RunStepsCons(e1, s2, [s3] + t3);
      err := SetProperties(params.properties);
      if err.Some? {
        return;
      }
      ghost var e2 := element.value;
      RunStepsCons(e2, s3, t3);
      err := SetClassList(params.classList);
      if err.Some? {
        return;
      }
      ghost var e3 := element.value;
      assert t3 == [s4] + [s5, s6];
      RunStepsCons(e3, s4, [s5, s6]);
      err := SetStyles(params.styles);
      if err.Some? {
        return;
      }
      ghost var e4 := element.value;
      assert [s5, s6] == [s5] + [s6];
      RunStepsCons(e4, s5, [s6]);
      SetText(params.text);
      ghost var e5 := element.value;
      assert [s6] == [s6] + [];
      RunStepsCons(e5, s6, []);
      SetChildNodes(params.childNodes);
    }

    /** `_setStyles`: asserts an object, then writes every own key. */
    method SetStyles(styles: ObjectArg) returns (err: Option<BuildError>)
      requires element.Some?
      modifies this
      ensures element.Some? && Effect(old(element).value, StylesStep(styles)) == (element.value, err)
    {
      if styles.NonObject? {
        return Some(NotAnObject("styles"));
      }
      var entries := styles.entries;
      ghost var e0 := element.value;
      for i := 0 to |entries|
        invariant element == Some(e0.(style := WriteEntries(e0.style, entries[..i], false)))
      {
        var entry := entries[i];
        if entry.own {
          var e := element.value;
          element := Some(e.(style := e.style[entry.key := entry.value]));
        }
        assert entries[..i + 1][..i] == entries[..i];
      }
      assert entries[..|entries|] == entries;
      err := None;
    }

    /** `_setAttributes`: asserts an object, then sets every own, non-null key. */
    method SetAttributes(attributes: ObjectArg) returns (err: Option<BuildError>)
      requires element.Some?
      modifies this
      ensures element.Some? && Effect(old(element).value, AttributesStep(attributes)) == (element.value, err)
    {
      if attributes.NonObject? {
        return Some(NotAnObject("attributes"));
      }
      var entries := attributes.entries;
      ghost var e0 := element.value;
      for i := 0 to |entries|
        invariant element == Some(e0.(attributes := WriteEntries(e0.attributes, entries[..i], true)))
      {
        var entry := entries[i];
        if entry.own && entry.value != Null {
          var e := element.value;
          element := Some(e.(attributes := e.attributes[entry.key := entry.value]));
        }
        assert entries[..i + 1][..i] == entries[..i];
      }
      assert entries[..|entries|] == entries;
      err := None;
    }

    /** `_setProperties`: asserts an object, then assigns every own, non-null key. */
    method SetProperties(properties: ObjectArg) returns (err: Option<BuildError>)
      requires element.Some?
      modifies this
      ensures element.Some? && Effect(old(element).value, PropertiesStep(properties)) == (element.value, err)
    {
      if properties.NonObject? {
        return Some(NotAnObject("properties"));
      }
      var entries := properties.entries;
      ghost var e0 := element.value;
      for i := 0 to |entries|
        invariant element == Some(e0.(properties := WriteEntries(e0.properties, entries[..i], true)))
      {
        var entry := entries[i];
        if entry.own && entry.value != Null {
          var e := element.value;
          element := Some(e.(properties := e.properties[entry.key := entry.value]));
        }
        assert entries[..i + 1][..i] == entries[..i];
      }
      assert entries[..|entries|] == entries;
      err := None;
    }

    /** `_setClassList`: adds the names when there are any. */
    method SetClassList(classList: seq<string>) returns (err: Option<BuildError>)
      requires element.Some?
      modifies this
      ensures element.Some? && Effect(old(element).value, ClassListStep(classList)) == (element.value, err)
    {
      err := None;
      if |classList| > 0 {
        var e := element.value;
        match ClassListAdd(e.classList, classList)
        case Ok(list) =>
          element := Some(e.(classList := list));
        case Err(x) =>
          err := Some(ClassTokenError(x));
      }
    }

    /** `_setText`: appends a text node unless the text is empty. */
    method SetText(text: string)
      requires element.Some?
      modifies this
      ensures element.Some? && Effect(old(element).value, TextStep(text)) == (element.value, None)
    {
      if text != "" {
        var e := element.value;
        element := Some(e.(childNodes := e.childNodes + [TextNode(text)]));
      }
    }

    /** `_setChildNodes`: appends each node in index order. */
    method SetChildNodes(childNodes: seq<Node>)
      requires element.Some?
      modifies this
      ensures element.Some? && Effect(old(element).value, ChildNodesStep(childNodes)) == (element.value, None)
    {
      ghost var e0 := element.value;
      var countOfChildren := |childNodes|;
      assert e0.childNodes + childNodes[..0] == e0.childNodes;
      assert e0.(childNodes := e0.childNodes) == e0;
      for i := 0 to countOfChildren
        invariant element == Some(e0.(childNodes := e0.childNodes + childNodes[..i]))
      {
        var e := element.value;
        element := Some(e.(childNodes := e.childNodes + [childNodes[i]]));
        assert childNodes[..i + 1] == childNodes[..i] + [childNodes[i]];
        assert (e0.childNodes + childNodes[..i]) + [childNodes[i]] == e0.childNodes + childNodes[..i + 1];
      }
      assert childNodes[..countOfChildren] == childNodes;
    }
  }

  /** `HyperFlex.html`: builds with a fresh builder and returns its element. */
  method Html(querySelector: string, params: HyperFlexParams) returns (r: Result<Element, BuildError>)
    ensures r == Build(querySelector, params)
  {
    var builder := new HyperFlex(querySelector, params);
    var err := builder.CreateHtmlElement();
    if err.Some? {
      return Err(err.value);
    }
    r := Ok(builder.element.value);
  }
}

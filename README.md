# HyperFlex builder, modelled in Dafny

HyperFlex builds one DOM element from a CSS-like selector (`tag#id.class1.class2`)
and a parameter bag (attributes, properties, class names, inline styles, text,
child nodes). This project models its two parts:

- **Selector parser** (`QuerySelector`, `selector.dfy`): `_parseQuerySelector`.
  The source matches the pattern `^([\w-]*)([#\w\d-_]*)?([.\w\d-_]*)?$`. The
  model scans each group greedily (`Run`, `Match`) and proves that this finds a
  match exactly when the pattern's language holds the string. The selector
  written out from a descriptor parses back to that descriptor. Every accepted
  selector has that written-out shape, and the rejected ones are characterised.
- **Element builder** (`Builder`, `builder.dfy`, with the element record and the
  class list's `add` in `Dom`, `dom.dfy`). The specification is a pipeline of
  `Step`s on element values: id, selector classes, attributes, properties,
  parameter classes, styles, text, then child nodes. A step that throws stops
  the pipeline and leaves the updates made before it. The class
  `Builder.HyperFlex` is the builder object. Its methods update its `element`
  field the way the source updates `this._element`: one step per method, with
  `for` loops over the parameter objects' keys and over the child nodes. Each
  method is proved to follow its step. Lemmas then state what a successful
  build yields, field by field.

`wrappers.dfy` holds `Option` and `Result`. Thrown exceptions become `Err`
results. Two DOM operations are kept, as functions on values:
`document.createElement` is `Dom.CreateElement`, and `classList.add`, with its
throws, is `Dom.ClassListAdd`.

Three consequences of the pattern that the model keeps:
- A selector outside the pattern (one with a space, say) makes `exec` return
  `null`, and reading `matches[1]` throws (`NoMatch`).
- Group 2 of the pattern does not itself demand a leading `#`. Group 1 is
  greedy, so group 2 can only begin with `#` (`Match` proves this).
- A bare `#` is accepted and yields an empty id, so `"div#"` parses like
  `"div"`.

## Model

| member | source | states |
|---|---|---|
| QuerySelector.Run | src/js/HyperFlex.js:97 | a greedy `[…]*` group: the longest prefix drawn from the character class; the next character is outside it |
| QuerySelector.Match | src/js/HyperFlex.js:97 | on a match the three groups concatenate to the input and use their classes; a non-empty id group starts with `#`, a non-empty class group with `.` |
| QuerySelector.MatchIsRegexMatch | src/js/HyperFlex.js:97 | `exec` matches exactly when the string splits into `[\w-]*`, `[#\w-]*` and `[.\w-]*` parts |
| QuerySelector.Split | src/js/HyperFlex.js:103 | `split('.')` gives at least one piece, no piece holds the separator, and joining the pieces gives the input back |
| QuerySelector.SplitJoin | src/js/HyperFlex.js:103 | splitting a join of dot-free pieces gives the pieces back |
| QuerySelector.ParseQuerySelector | src/js/HyperFlex.js:96-109 | an accepted selector yields a non-empty `[\w-]` tag, an id over `[#\w-]` and class names over `[\w-]` |
| QuerySelector.ParseFormat | src/js/HyperFlex.js:92-108 | round trip: a well-formed descriptor written as `tag#id.c1.c2…` parses back to exactly that tag, id and class list |
| QuerySelector.ParseOkShape | src/js/HyperFlex.js:97-108 | every accepted selector is its descriptor written out; the only other accepted shape has a bare `#` and an empty id |
| QuerySelector.ParseNoMatchIff | src/js/HyperFlex.js:97-98 | parsing throws on the null match exactly when the selector is outside the pattern's language |
| QuerySelector.ParseEmptyTagIff | src/js/HyperFlex.js:97-101 | a selector in the language is refused for an empty tag exactly when it is empty or does not start with a tag character |
| QuerySelector.ForeignCharRejected | src/js/HyperFlex.js:97-98 | any character outside `[#.\w-]`, a space for instance, makes parsing fail |
| QuerySelector.HashAfterDotRejected | src/js/HyperFlex.js:97-98 | a `#` after a `.` makes parsing fail |
| QuerySelector.ParseTestSelector | src/js/HyperFlex.js:92-109 | `"div#monId.maClass"` parses to `div`, `monId`, `["maClass"]` |
| QuerySelector.ParseBareTag | src/js/HyperFlex.js:102-103 | `"div"` parses to `div`, an empty id and no classes |
| QuerySelector.ParseIdOnly | src/js/HyperFlex.js:99-101 | `"#id"` is refused for its empty tag |
| QuerySelector.ParseClassOnly | src/js/HyperFlex.js:99-101 | `".cls"` is refused for its empty tag |
| Dom.CreateElement | src/js/HyperFlex.js:67 | a created element has the given tag and nothing else: no id, attributes, properties, classes, style or children |
| Dom.CheckTokens | src/js/HyperFlex.js:203 | `classList.add` refuses a call exactly when some token is empty or holds whitespace, and the error is the one the first invalid token raises |
| Dom.CheckTokensFirstWins | src/js/HyperFlex.js:203 | for `["a b", ""]` the whitespace error of the first token is raised, not the empty-token error |
| Dom.AddTokens | src/js/HyperFlex.js:203 | adding keeps the list duplicate-free, holds exactly the old and the added tokens, and keeps the old list as a prefix |
| Dom.AddTokensDistinct | src/js/HyperFlex.js:203 | with no token repeated, the class list grows by exactly the tokens, in order |
| Dom.AddTokensConcat | src/js/HyperFlex.js:69-70 | adding the selector's classes and then the parameters' classes equals adding both lists in one call |
| Dom.ClassListAdd | src/js/HyperFlex.js:201-206 | the add succeeds exactly when every token is valid, and then yields the token-set union in order; a refused add changes nothing |
| Builder.WriteEntriesAt | src/js/HyperFlex.js:168-172 | after a `for…in` loop, key `k` is present exactly when some own entry writes it (non-null where null is skipped), with the last such entry's value; other keys keep their old value |
| Builder.NullEntriesWriteNothing | src/js/HyperFlex.js:169 | a loop over only null-valued entries writes nothing where null is skipped |
| Builder.NullSkipLeavesElement | src/js/HyperFlex.js:187-191 | attribute and property steps whose values are all null leave the element unchanged |
| Builder.RunStepsConcat | src/js/HyperFlex.js:69-71 | running the selector steps and then the parameter steps is running the concatenated pipeline, which stops at the first throw |
| Builder.BuildOkIff | src/js/HyperFlex.js:60-72 | a build succeeds exactly when the selector parses, every class token is accepted, and attributes, properties and styles are objects |
| Builder.BuildSucceeds | src/js/HyperFlex.js:128-135 | the step pipeline yields the field-by-field `Expected` element, each step touching only its own field |
| Builder.BuildTagAndId | src/js/HyperFlex.js:65-69 | the built element's tag is the parsed tag and its id the parsed id |
| Builder.BuildClassList | src/js/HyperFlex.js:201-206 | the classes are duplicate-free and are exactly the selector's and the parameters' classes; with no repeats they are the selector's then the parameters', in order |
| Builder.BuildAttributes | src/js/HyperFlex.js:162-174 | attribute `k` is set exactly when an own non-null entry has key `k`, to the last such value; null entries are skipped |
| Builder.BuildProperties | src/js/HyperFlex.js:181-193 | property `k` is assigned exactly when an own non-null entry has key `k`, the last such value |
| Builder.BuildStyles | src/js/HyperFlex.js:143-155 | style `k` is set exactly when an own entry has key `k`, null or not, to the last such value |
| Builder.BuildChildNodes | src/js/HyperFlex.js:213-232 | the children number `(text ≠ "" ? 1 : 0) + \|childNodes\|`; they start with the text node when there is text and end with the child nodes in order |
| Builder.HrefExample | src/js/HyperFlex.js:168-172 | `{href: null}` sets no `href` attribute; `{href: "x"}` sets it to `"x"` |
| Builder.SpanClassExample | src/js/HyperFlex.js:69-71 | selector `"span.c"` with classes `["a", "b"]` gives the classes `c`, `a`, `b` in that order |
| Builder.HyperFlex.constructor | src/js/HyperFlex.js:17-44 | keeps the selector and the parameters; the element is null until it is created |
| Builder.HyperFlex.CreateHtmlElement | src/js/HyperFlex.js:60-72 | the element and the error are those of `Created`. A selector that does not parse leaves the old element; otherwise a fresh element of the parsed tag goes through the pipeline and keeps every update made before a throw |
| Builder.HyperFlex.SetId | src/js/HyperFlex.js:117-122 | sets the id when it is non-empty; otherwise the element is unchanged |
| Builder.HyperFlex.SetParams | src/js/HyperFlex.js:128-135 | attributes → properties → classes → styles → text → children, stopping at the first throw |
| Builder.HyperFlex.SetAttributes | src/js/HyperFlex.js:162-174 | throws on a non-object; otherwise the loop writes every own non-null key and changes nothing else |
| Builder.HyperFlex.SetProperties | src/js/HyperFlex.js:181-193 | throws on a non-object; otherwise the loop assigns every own non-null key and changes nothing else |
| Builder.HyperFlex.SetStyles | src/js/HyperFlex.js:143-155 | throws on a non-object; otherwise the loop writes every own key, null included, and changes nothing else |
| Builder.HyperFlex.SetClassList | src/js/HyperFlex.js:201-206 | an empty list is a no-op; otherwise the classes are added or, on an invalid token, the add throws and nothing changes |
| Builder.HyperFlex.SetText | src/js/HyperFlex.js:213-218 | appends exactly one text node when the text is not empty; the empty text changes nothing |
| Builder.HyperFlex.SetChildNodes | src/js/HyperFlex.js:226-232 | the indexed loop appends the nodes in index order after the existing children |
| Builder.Html | src/js/HyperFlex.js:52-54 | the static builder returns exactly `Build(selector, params)`: the finished element or the error the build throws |

## Left out

- Constructor type assertions (`isString`, `instanceof HyperFlexParams`, src/js/HyperFlex.js:18-25): Dafny's static types already rule out a non-string selector or a foreign parameter bag, so the model has no such inputs.
- The `element` and `querySelector` getters: they are the public fields `element` and `querySelector` of `Builder.HyperFlex`. The symbol-keyed private field is an ordinary `const`.
- The regular-expression engine: it is replaced by the greedy scanner, and `MatchIsRegexMatch` proves the two accept the same strings. A group that took no part in the match (`undefined` in JavaScript) reads as `""`. The source only tests groups for truthiness, so nothing depends on the difference. The `i` flag does not change `\w` outside unicode mode and is not modelled.
- The DOM itself: the element is a value, not a node object. Node identity, two builds yielding distinct objects, the re-parenting of a node that is already attached, and `HierarchyRequestError` on appending an ancestor are not modelled.
- Dom.CreateElement: the name check of `document.createElement` (an InvalidCharacterError for a tag starting with a digit or `-`, such as `"1div"` or `"-x"`, which the selector pattern accepts) and HTML lowercasing of the tag are not modelled. `Builder.BuildOkIff` and `Builder.BuildTagAndId` hold for a `createElement` that accepts every name and keeps its case.
- Properties are stored in their own map. Assignments with DOM effects are not modelled: `textContent` or `innerHTML` adding children before the text and child-node steps, which `Builder.BuildChildNodes` does not count, and a read-only accessor such as `tagName` throwing a TypeError in module code, which `Builder.BuildOkIff` does not list.
- Reflection between attributes and properties is not modelled: `setAttribute('id' | 'class', …)` and properties named `id` or `className` do not touch the separate `id` and `classList` fields.
- `setAttribute`'s string conversion and attribute-name validation, and the CSS meaning of style assignments (invalid values ignored, null clearing a style): values are stored as given, as a `JsValue`.
- `for…in` enumeration order: each parameter object is given as its enumerated entries, in order. The engine's own ordering (integer-like keys first) is not modelled. Repeated keys are allowed, and the last write wins.
- `isObject` from `@flexio-oss/assert`: its exact test is not part of this model. An argument is either an object's entries (`Obj`) or not an object (`NonObject`).
- The text of the assertion messages: errors carry only the kind and the name of the offending argument.
- `HyperFlexParams` and `AttributeHandler` (src/js/HyperFlexParams.js, src/js/AttributeHandler.js) are not part of this model. The parameter bag is a plain record, already filled in by the caller.
- `DOMTokenList.add` is browser behaviour. It is modelled only as far as the builder depends on it: every token is checked first (empty → SyntaxError, whitespace → InvalidCharacterError), and then each new token is appended once.

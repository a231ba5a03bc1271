/**
 * The slice of the document API that the builder drives, as values: an element
 * record, the nodes it holds, and the class list's `add` (a DOMTokenList, which
 * keeps each token once).
 */
module Dom {
  import opened Wrappers

  /** A JavaScript value as far as the builder tells values apart: `null` is a
      skip mark for attributes and properties; any other value (number,
      boolean, object, function) is an opaque handle. */
  datatype JsValue = Null | Undefined | Str(s: string) | Other(handle: nat)

  /** A child node: a text node, or an element built beforehand. */
  datatype Node = TextNode(data: string) | ElementNode(element: Element)

  /** An element: its tag, its id, its attributes, the properties assigned
      onto it, its class list, its inline style and its children. */
  datatype Element = Element(
    tag: string,
    id: string,
    attributes: map<string, JsValue>,
    properties: map<string, JsValue>,
    classList: seq<string>,
    style: map<string, JsValue>,
    childNodes: seq<Node>)

  /** `document.createElement(tag)`: a bare element of that tag. */
  function CreateElement(tag: string): (e: Element)
    ensures e.tag == tag && e.id == "" && e.classList == [] && e.childNodes == []
    ensures e.attributes == map[] && e.properties == map[] && e.style == map[]
  {
    Element(tag, "", map[], map[], [], map[], [])
  }

  predicate NoDuplicates(s: seq<string>) {
    forall i, j :: 0 <= i < j < |s| ==> s[i] != s[j]
  }

  /** ASCII whitespace as the DOM standard defines it. */
  predicate IsAsciiWhitespace(c: char) {
    c == ' ' || c == '\t' || c == '\n' || c == '\U{000C}' || c == '\r'
  }

  predicate ValidToken(t: string) {
    t != "" && forall i :: 0 <= i < |t| ==> !IsAsciiWhitespace(t[i])
  }

  /** What `DOMTokenList.add` throws: a SyntaxError for an empty token, an
      InvalidCharacterError for a token holding whitespace. */
  datatype TokenError = EmptyToken | WhitespaceInToken

  /** The error an invalid token raises. */
  function TokenErrorOf(t: string): TokenError {
    if t == "" then EmptyToken else WhitespaceInToken
  }

  /** `tokens[i]` is the first token that `add` refuses. */
  predicate FirstInvalidAt(tokens: seq<string>, i: int) {
    0 <= i < |tokens| && !ValidToken(tokens[i]) && forall j :: 0 <= j < i ==> ValidToken(tokens[j])
  }

  /** The error for the first invalid token, if any. */
  function CheckTokens(tokens: seq<string>): (r: Option<TokenError>)
    ensures r.None? <==> forall i :: 0 <= i < |tokens| ==> ValidToken(tokens[i])
    ensures r.Some? ==> exists i :: FirstInvalidAt(tokens, i) && r.value == TokenErrorOf(tokens[i])
  {
    if tokens == [] then None
    else if tokens[0] == "" then Some(EmptyToken)
    else if exists i :: 0 <= i < |tokens[0]| && IsAsciiWhitespace(tokens[0][i]) then Some(WhitespaceInToken)
    else
      var r := CheckTokens(tokens[1..]);
      assert forall i :: 1 <= i < |tokens| ==> tokens[i] == tokens[1..][i - 1];
      r
  }

  /** Adds one token unless the list already holds it. */
  /** A whitespace token before an empty one raises the whitespace error. */
  lemma CheckTokensFirstWins()
    ensures CheckTokens(["a b", ""]) == Some(WhitespaceInToken)
  {
    assert IsAsciiWhitespace("a b"[1]);
  }

  function AddToken(list: seq<string>, t: string): seq<string> {
    if t in list then list else list + [t]
  }

  /** Adds the tokens in order, each at most once. */
  function AddTokens(list: seq<string>, tokens: seq<string>): (r: seq<string>)
    ensures NoDuplicates(list) ==> NoDuplicates(r)
    ensures forall t :: t in r <==> t in list || t in tokens
    ensures |list| <= |r| && r[..|list|] == list
    decreases |tokens|
  {
    if tokens == [] then list
    else
      var next := AddToken(list, tokens[0]);
      var r := AddTokens(next, tokens[1..]);
      assert r[..|next|][..|list|] == r[..|list|];
      assert forall t :: t in tokens <==> t == tokens[0] || t in tokens[1..];
      r
  }

  /** With no token repeated, the list simply grows by the tokens, in order. */
  lemma {:induction false} AddTokensDistinct(list: seq<string>, tokens: seq<string>)
    requires NoDuplicates(list + tokens)
    ensures AddTokens(list, tokens) == list + tokens
    decreases |tokens|
  {
    if tokens != [] {
      var t := tokens[0];
      assert (list + tokens)[|list|] == t;
      forall i | 0 <= i < |list| ensures list[i] != t {
        assert (list + tokens)[i] == list[i];
      }
      assert (list + [t]) + tokens[1..] == list + tokens;
      AddTokensDistinct(list + [t], tokens[1..]);
    }
  }

  /** Adding in two calls is adding the concatenation in one. */
  lemma {:induction false} AddTokensConcat(list: seq<string>, a: seq<string>, b: seq<string>)
    ensures AddTokens(AddTokens(list, a), b) == AddTokens(list, a + b)
    decreases |a|
  {
    if a != [] {
      assert (a + b)[0] == a[0] && (a + b)[1..] == a[1..] + b;
      AddTokensConcat(AddToken(list, a[0]), a[1..], b);
    } else {
      assert a + b == b;
    }
  }

  /** `element.classList.add(...tokens)`: every token is checked before any is
      added, so a refused call leaves the list as it was. */
  function ClassListAdd(list: seq<string>, tokens: seq<string>): (r: Result<seq<string>, TokenError>)
    ensures r.Ok? <==> forall i :: 0 <= i < |tokens| ==> ValidToken(tokens[i])
    ensures r.Ok? ==> r.value == AddTokens(list, tokens)
  {
    match CheckTokens(tokens)
    case Some(x) => Err(x)
    case None => Ok(AddTokens(list, tokens))
  }
}

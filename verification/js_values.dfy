/**
 * The JavaScript value conventions the scraper leans on: a selector result
 * that is either a string or `undefined`, truthiness, the `||` fallback
 * operator, expressions that may throw, and `String.prototype.startsWith`.
 */
module JsValues {

  /** A value that may be `undefined`. */
  datatype Option<+T> = None | Some(value: T)
  {
    /** The value, or `default` when it is `undefined`. */
    function GetOr(default: T): T
    {
      match this
      case Some(v) => v
      case None => default
    }
  }

  /** The outcome of evaluating an expression that may throw. */
  datatype Completion<+T> = Normal(value: T) | Thrown

  /** A string-or-undefined is truthy exactly when it is a non-empty string. */
  predicate Truthy(o: Option<string>)
  {
    o.Some? && o.value != ""
  }

  /** `a || b` on strings-or-undefined. */
  function Or(a: Option<string>, b: Option<string>): Option<string>
  {
    if Truthy(a) then a else b
  }

  /** `s || d` on a trimmed text: the text, or `d` when it is empty. */
  function OrText(s: string, d: string): string
  {
    if s != "" then s else d
  }

  /** `o || d` on a string-or-undefined, with a string default. */
  function OrDefault(o: Option<string>, d: string): string
  {
    if Truthy(o) then o.value else d
  }

  predicate StartsWith(s: string, prefix: string)
  {
    |prefix| <= |s| && s[..|prefix|] == prefix
  }

  /** The first position of `c` in `s`, or `|s|` when there is none. */
  function IndexOf(s: string, c: char): (i: nat)
    ensures i <= |s|
    ensures i < |s| ==> s[i] == c
    ensures forall j :: 0 <= j < i ==> s[j] != c
  {
    if |s| == 0 then 0
    else if s[0] == c then 0
    else 1 + IndexOf(s[1..], c)
  }

  /** Concatenation regroups freely. */
  lemma ConcatAssoc(a: string, b: string, c: string)
    ensures a + (b + c) == a + b + c
  {
  }

  /** Candidate `i` is the first truthy one of a fallback chain. */
  ghost predicate FirstTruthyAt(candidates: seq<Option<string>>, i: int)
  {
    && 0 <= i < |candidates|
    && Truthy(candidates[i])
    && forall j :: 0 <= j < i ==> !Truthy(candidates[j])
  }

  /**
   * A fallback chain `c0 || c1 || ... || default`: the first non-empty
   * candidate wins, and the default is used only when every candidate is
   * empty or `undefined`.
   */
  function FirstNonEmpty(candidates: seq<Option<string>>, default: string): (r: string)
    ensures (forall i :: 0 <= i < |candidates| ==> !Truthy(candidates[i])) ==> r == default
    ensures forall i :: FirstTruthyAt(candidates, i) ==> r == candidates[i].value
    ensures r == default || exists i :: 0 <= i < |candidates| && Truthy(candidates[i]) && r == candidates[i].value
  {
    if |candidates| == 0 then default
    else if Truthy(candidates[0]) then candidates[0].value
    else
      var rest := FirstNonEmpty(candidates[1..], default);
      assert forall i :: FirstTruthyAt(candidates, i) ==> i > 0 && FirstTruthyAt(candidates[1..], i - 1);
      rest
  }

  /** A chain whose first two candidates are empty falls back as `c || d` does. */
  lemma ThirdInChain(a: Option<string>, b: Option<string>, c: string, default: string)
    requires !Truthy(a) && !Truthy(b)
    ensures FirstNonEmpty([a, b, Some(c)], default) == OrText(c, default)
  {
    var chain := [a, b, Some(c)];
    assert c != "" ==> FirstTruthyAt(chain, 2);
  }
}

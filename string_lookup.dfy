/**
 * Text-based lookup criterion (ByStringLookup): a candidate matches when a
 * string comparison policy accepts the pair (configured text, candidate text).
 *
 * The semantics of the policies (SUBSTRING, EXACT, ...) live in
 * StringComparePolicy, which is not part of this model: `compare` is passed in
 * and never interpreted. The candidate's text is extracted by the abstract
 * `getText` of a concrete subclass, also passed in.
 */
module StringLookup {

  /** A string comparison policy, known only by its name. */
  datatype Policy = Policy(name: string)

  /** The policy the one-argument constructor installs. */
  const SUBSTRING: Policy := Policy("SUBSTRING")

  /** The verdict of `policy.compare(expected, actual)`, supplied by the policy itself. */
  type Compare = (Policy, string, string) -> bool

  /** An immutable criterion: its text and policy are fixed when it is built. */
  datatype ByStringLookup = ByStringLookup(text: string, policy: Policy)

  /** The one-argument constructor: the policy defaults to SUBSTRING. */
  function WithDefaultPolicy(text: string): (c: ByStringLookup)
    ensures c.text == text
    ensures c.policy == SUBSTRING
  {
    ByStringLookup(text, SUBSTRING)
  }

  /** `check(control)`: the policy's own verdict on the configured text and the candidate's text. */
  function Check<T>(c: ByStringLookup, getText: T -> string, compare: Compare, control: T): (r: bool)
    ensures r == compare(c.policy, c.text, getText(control))
  {
    compare(c.policy, c.text, getText(control))
  }

  /** `toString()`: "Text = " followed by the configured text. */
  function ToString(c: ByStringLookup): (s: string)
    ensures |s| == 7 + |c.text|
    ensures s[..7] == "Text = "
    ensures s[7..] == c.text
  {
    "Text = " + c.text
  }

  /** The verdict depends on the candidate only through its text. */
  lemma SameTextSameVerdict<T>(c: ByStringLookup, getText: T -> string, compare: Compare, x: T, y: T)
    requires getText(x) == getText(y)
    ensures Check(c, getText, compare, x) == Check(c, getText, compare, y)
  {
  }

  /** A criterion built with the default policy behaves, under every policy semantics and for
      every candidate, exactly like one built explicitly with SUBSTRING. */
  lemma DefaultIsSubstring<T>(text: string, getText: T -> string, compare: Compare, control: T)
    ensures Check(WithDefaultPolicy(text), getText, compare, control)
         == Check(ByStringLookup(text, SUBSTRING), getText, compare, control)
  {
  }

  /** The diagnostic text identifies the configured text: two criteria that print alike
      look for the same text. */
  lemma ToStringDeterminesText(a: ByStringLookup, b: ByStringLookup)
    requires ToString(a) == ToString(b)
    ensures a.text == b.text
  {
    assert a.text == ToString(a)[7..];
  }
}

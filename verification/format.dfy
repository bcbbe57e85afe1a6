/**
 The fragment of Go's `fmt.Sprintf(template, arg)` the default-search
 fallback relies on: a template with at most one formatting verb, `%s`, and
 one string argument.
 */
module Format {
  import opened Strings

  /** The templates this model covers: at most one '%', and when there is one
      it begins a `%s` verb. Other verbs, `%%` and a trailing '%' are outside
      the model. */
  predicate SingleVerb(t: string)
  {
    var k := IndexOf(t, '%');
    k == |t| || (k + 1 < |t| && t[k + 1] == 's' && '%' !in t[k + 2..])
  }

  /** What Go appends when an argument is left over because the template
      has no verb for it. */
  function Extra(arg: string): string
  {
    "%!(EXTRA string=" + arg + ")"
  }

  /** `fmt.Sprintf(t, arg)` for a template covered by `SingleVerb`: the `%s`
      is replaced by `arg` as it is, with no escaping; a template without a
      verb is kept and Go's EXTRA note follows it. */
  function Sprintf(t: string, arg: string): (r: string)
    requires SingleVerb(t)
    ensures IndexOf(t, '%') <= |r| && r[..IndexOf(t, '%')] == t[..IndexOf(t, '%')]
    ensures IndexOf(t, '%') < |t| ==>
              |r| == |t| - 2 + |arg| && r[IndexOf(t, '%')..IndexOf(t, '%') + |arg|] == arg
  {
    var k := IndexOf(t, '%');
    if k == |t| then t + Extra(arg)
    else t[..k] + arg + t[k + 2..]
  }

  /** A template `pre + "%s" + post` is in the model, and formatting it
      puts the argument between `pre` and `post`. */
  lemma SprintfSubstitutes(pre: string, post: string, arg: string)
    requires '%' !in pre && '%' !in post
    ensures SingleVerb(pre + "%s" + post)
    ensures Sprintf(pre + "%s" + post, arg) == pre + arg + post
  {
    var t := pre + "%s" + post;
    IndexOfAfterPrefix(pre, "%s" + post, '%');
    assert t == pre + ("%s" + post);
    assert t[|pre| + 2..] == post;
    assert t[..|pre|] == pre;
  }

  /** A template without '%' is in the model, and formatting it keeps the
      template and reports the unused argument. */
  lemma SprintfWithoutVerb(t: string, arg: string)
    requires '%' !in t
    ensures SingleVerb(t)
    ensures Sprintf(t, arg) == t + "%!(EXTRA string=" + arg + ")"
  {
  }

  /** The first `c` of `a + b`, when `a` has none, is the first `c` of `b`
      shifted by `|a|`. */
  lemma {:induction false} IndexOfAfterPrefix(a: string, b: string, c: char)
    requires c !in a
    ensures IndexOf(a + b, c) == |a| + IndexOf(b, c)
  {
    if |a| > 0 {
      assert (a + b)[1..] == a[1..] + b;
      assert c !in a[1..];
      IndexOfAfterPrefix(a[1..], b, c);
    } else {
      assert a + b == b;
    }
  }
}

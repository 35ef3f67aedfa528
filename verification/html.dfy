/** The HTML the report prints, as a sequence of lines (one per `print`
    call) of tokens, and a stack machine that matches opening and closing
    tags. `Render` gives the characters of each token. */
module Html {
  import opened Results

  /** The element names the report uses. */
  datatype Tag = A | Br | Div | Input | Li | Script | Style | Textarea | Ul

  function TagName(t: Tag): string {
    match t
    case A => "a"
    case Br => "br"
    case Div => "div"
    case Input => "input"
    case Li => "li"
    case Script => "script"
    case Style => "style"
    case Textarea => "textarea"
    case Ul => "ul"
  }

  datatype Token =
    | Open(tag: Tag, attrs: string)   // `<tag attrs>`, closed later by `</tag>`
    | Close(tag: Tag)                 // `</tag>`
    | Void(tag: Tag, attrs: string)   // `<tag attrs>` that takes no closing tag
    | Comment(body: string)           // `<!--body-->`
    | Text(text: string)

  /** What one `print` call writes, before its newline. */
  type Line = seq<Token>

  function Render(tok: Token): string {
    match tok
    case Open(t, a) => "<" + TagName(t) + a + ">"
    case Close(t) => "</" + TagName(t) + ">"
    case Void(t, a) => "<" + TagName(t) + a + ">"
    case Comment(b) => "<!--" + b + "-->"
    case Text(s) => s
  }

  function RenderLine(l: Line): string
    decreases |l|
  {
    if l == [] then "" else Render(l[0]) + RenderLine(l[1..])
  }

  /** The characters written to standard output: each line and its newline. */
  function Print(lines: seq<Line>): string
    decreases |lines|
  {
    if lines == [] then "" else RenderLine(lines[0]) + "\n" + Print(lines[1..])
  }

  /** The tokens of a sequence of lines, in output order. */
  function Flatten(lines: seq<Line>): (ts: seq<Token>)
    ensures |lines| == 1 ==> ts == lines[0]
    decreases |lines|
  {
    if lines == [] then [] else lines[0] + Flatten(lines[1..])
  }

  lemma {:induction false} FlattenAppend(a: seq<Line>, b: seq<Line>)
    ensures Flatten(a + b) == Flatten(a) + Flatten(b)
    decreases |a|
  {
    if a == [] {
      assert a + b == b;
    } else {
      assert (a + b)[1..] == a[1..] + b;
      FlattenAppend(a[1..], b);
    }
  }

  lemma FlattenFrame(pre: seq<Line>, mid: seq<Line>, post: seq<Line>)
    ensures Flatten(pre + mid + post) == Flatten(pre) + Flatten(mid) + Flatten(post)
  {
    FlattenAppend(pre + mid, post);
    FlattenAppend(pre, mid);
  }

  lemma Flatten2(l0: Line, l1: Line)
    ensures Flatten([l0, l1]) == l0 + l1
  {
    assert [l0, l1][1..] == [l1];
  }

  lemma Flatten3(l0: Line, l1: Line, l2: Line)
    ensures Flatten([l0, l1, l2]) == l0 + l1 + l2
  {
    assert [l0, l1, l2][1..] == [l1, l2];
    assert [l1, l2][1..] == [l2];
  }

  /** Printing consecutive line sequences prints their texts one after the other. */
  lemma {:induction false} PrintAppend(a: seq<Line>, b: seq<Line>)
    ensures Print(a + b) == Print(a) + Print(b)
    decreases |a|
  {
    if a == [] {
      assert a + b == b;
    } else {
      assert (a + b)[0] == a[0] && (a + b)[1..] == a[1..] + b;
      PrintAppend(a[1..], b);
    }
  }

  // ---------------------------------------------------------------------
  // Tag matching

  /** The elements open at some point of the document, innermost last. */
  type Stack = seq<Token>

  /** One token's effect on the open elements; `None` for a closing tag
      that does not match the innermost open element. */
  function Step(stack: Stack, t: Token): Option<Stack> {
    match t
    case Open(_, _) => Some(stack + [t])
    case Close(n) =>
      if |stack| > 0 && stack[|stack| - 1].Open? && stack[|stack| - 1].tag == n
      then Some(stack[..|stack| - 1])
      else None
    case _ => Some(stack)
  }

  function Run(stack: Stack, ts: seq<Token>): Option<Stack>
    decreases |ts|
  {
    if ts == [] then Some(stack)
    else
      match Step(stack, ts[0])
      case None => None
      case Some(s) => Run(s, ts[1..])
  }

  lemma {:induction false} RunAppend(s: Stack, a: seq<Token>, b: seq<Token>)
    ensures Run(s, a) == None ==> Run(s, a + b) == None
    ensures Run(s, a).Some? ==> Run(s, a + b) == Run(Run(s, a).value, b)
    decreases |a|
  {
    if a == [] {
      assert a + b == b;
    } else {
      assert (a + b)[0] == a[0] && (a + b)[1..] == a[1..] + b;
      match Step(s, a[0])
      case None =>
      case Some(s') => RunAppend(s', a[1..], b);
    }
  }

  /** Every element the tokens open they also close, in nesting order,
      and they close nothing they did not open, whatever is open around them. */
  ghost predicate Balanced(ts: seq<Token>) {
    forall s: Stack :: Run(s, ts) == Some(s)
  }

  /** Text, comments and void elements leave the open elements as they are. */
  predicate Neutral(t: Token) {
    t.Void? || t.Comment? || t.Text?
  }

  predicate AllNeutral(ts: seq<Token>) {
    forall i :: 0 <= i < |ts| ==> Neutral(ts[i])
  }

  lemma AllNeutralAppend(a: seq<Token>, b: seq<Token>)
    requires AllNeutral(a) && AllNeutral(b)
    ensures AllNeutral(a + b)
  {
    forall i | 0 <= i < |a + b| ensures Neutral((a + b)[i]) {
      if i >= |a| {
        assert (a + b)[i] == b[i - |a|];
      }
    }
  }

  lemma BalancedNeutral(ts: seq<Token>)
    requires AllNeutral(ts)
    ensures Balanced(ts)
  {
    forall s: Stack ensures Run(s, ts) == Some(s) {
      RunNeutral(s, ts);
    }
  }

  lemma {:induction false} RunNeutral(s: Stack, ts: seq<Token>)
    requires AllNeutral(ts)
    ensures Run(s, ts) == Some(s)
    decreases |ts|
  {
    if ts != [] {
      RunNeutral(s, ts[1..]);
    }
  }

  lemma BalancedAppend(a: seq<Token>, b: seq<Token>)
    requires Balanced(a) && Balanced(b)
    ensures Balanced(a + b)
  {
    forall s: Stack ensures Run(s, a + b) == Some(s) {
      RunAppend(s, a, b);
    }
  }

  /** An element wrapped around balanced content is balanced. */
  lemma BalancedWrap(tag: Tag, attrs: string, inner: seq<Token>)
    requires Balanced(inner)
    ensures Balanced([Open(tag, attrs)] + inner + [Close(tag)])
  {
    var o := Open(tag, attrs);
    forall s: Stack ensures Run(s, [o] + inner + [Close(tag)]) == Some(s) {
      RunAppend(s, [o], inner);
      RunAppend(s, [o] + inner, [Close(tag)]);
      assert Run(s, [o]) == Run(s + [o], []);
      assert (s + [o])[..|s + [o]| - 1] == s;
    }
  }

  /** A run that succeeds from some open elements succeeds the same way
      below any further enclosing elements. */
  lemma StepLift(s: Stack, u: Stack, t: Token)
    requires Step(u, t).Some?
    ensures Step(s + u, t) == Some(s + Step(u, t).value)
  {
    match t
    case Open(_, _) =>
      assert (s + u) + [t] == s + (u + [t]);
    case Close(_) =>
      assert (s + u)[|s + u| - 1] == u[|u| - 1];
      assert (s + u)[..|s + u| - 1] == s + u[..|u| - 1];
    case _ =>
  }

  lemma {:induction false} RunLift(s: Stack, u: Stack, ts: seq<Token>)
    requires Run(u, ts).Some?
    ensures Run(s + u, ts) == Some(s + Run(u, ts).value)
    decreases |ts|
  {
    if ts != [] {
      StepLift(s, u, ts[0]);
      RunLift(s, Step(u, ts[0]).value, ts[1..]);
    }
  }

  /** Balance can be decided from the empty stack alone. */
  lemma BalancedIff(ts: seq<Token>)
    ensures Balanced(ts) <==> Run([], ts) == Some([])
  {
    if Run([], ts) == Some([]) {
      forall s: Stack ensures Run(s, ts) == Some(s) {
        RunLift(s, [], ts);
        assert s + [] == s;
      }
    }
  }

  /** An element holding only text, comments and void elements. */
  lemma RunElement(s: Stack, o: Token, inner: seq<Token>)
    requires o.Open? && AllNeutral(inner)
    ensures Run(s, [o] + inner + [Close(o.tag)]) == Some(s)
  {
    RunAppend(s, [o], inner);
    RunAppend(s, [o] + inner, [Close(o.tag)]);
    assert Run(s, [o]) == Run(s + [o], []);
    RunNeutral(s + [o], inner);
    assert (s + [o])[..|s + [o]| - 1] == s;
  }

  /** What a whole document leaves open, lifted to any enclosing context. */
  lemma RunBalancedSuffix(s: Stack, a: seq<Token>, b: seq<Token>)
    requires Run(s, a).Some? && Balanced(b)
    ensures Run(s, a + b) == Run(s, a)
  {
    RunAppend(s, a, b);
  }

  // ---------------------------------------------------------------------
  // Counting tokens

  function CountWhere(ts: seq<Token>, p: Token -> bool): nat
    decreases |ts|
  {
    if ts == [] then 0 else (if p(ts[0]) then 1 else 0) + CountWhere(ts[1..], p)
  }

  /** 1 when `t` satisfies `p`, else 0. */
  function Ind(p: Token -> bool, t: Token): nat {
    if p(t) then 1 else 0
  }

  lemma Count1(t: Token, p: Token -> bool)
    ensures CountWhere([t], p) == Ind(p, t)
  {
  }

  lemma Count2(a: Token, b: Token, p: Token -> bool)
    ensures CountWhere([a, b], p) == Ind(p, a) + Ind(p, b)
  {
    assert [a, b][1..] == [b];
    Count1(b, p);
  }

  lemma Count3(a: Token, b: Token, c: Token, p: Token -> bool)
    ensures CountWhere([a, b, c], p) == Ind(p, a) + Ind(p, b) + Ind(p, c)
  {
    assert [a, b, c][1..] == [b, c];
    Count2(b, c, p);
  }

  lemma {:induction false} CountAppend(a: seq<Token>, b: seq<Token>, p: Token -> bool)
    ensures CountWhere(a + b, p) == CountWhere(a, p) + CountWhere(b, p)
    decreases |a|
  {
    if a == [] {
      assert a + b == b;
    } else {
      assert (a + b)[1..] == a[1..] + b;
      CountAppend(a[1..], b, p);
    }
  }

  lemma {:induction false} CountNone(ts: seq<Token>, p: Token -> bool)
    requires forall i :: 0 <= i < |ts| ==> !p(ts[i])
    ensures CountWhere(ts, p) == 0
    decreases |ts|
  {
    if ts != [] {
      CountNone(ts[1..], p);
    }
  }

  /** `s` ends with `suffix`. */
  predicate EndsWith(s: string, suffix: string) {
    |suffix| <= |s| && s[|s| - |suffix|..] == suffix
  }

  /** Whether a string ends with a given suffix is decided by its fixed
      tail: when the suffix is no longer than the tail it must end the
      tail, and when it is longer the tail must end the suffix. */
  lemma EndsWithTail(head: string, tail: string, suffix: string)
    ensures |suffix| <= |tail| ==> (EndsWith(head + tail, suffix) <==> EndsWith(tail, suffix))
    ensures |suffix| > |tail| && EndsWith(head + tail, suffix) ==> EndsWith(suffix, tail)
  {
    var s := head + tail;
    if |suffix| <= |tail| {
      assert s[|s| - |suffix|..] == tail[|tail| - |suffix|..];
    } else if EndsWith(s, suffix) {
      assert suffix[|suffix| - |tail|..] == s[|s| - |tail|..] == tail;
    }
  }
}

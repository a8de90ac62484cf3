/** Taking a buffer apart into lines, whatever is then done with each line. */
module WfdLines {

  predicate EndsLine(c: char) {
    c == '\n' || c == '\r'
  }

  predicate EndsNoLine(l: string) {
    forall i :: 0 <= i < |l| ==> !EndsLine(l[i])
  }

  /** Everything before the first line end. */
  function FirstLine(data: string): (l: string)
    ensures |l| <= |data| && l == data[..|l|] && EndsNoLine(l)
    ensures |l| < |data| ==> EndsLine(data[|l|])
  {
    if data == [] || EndsLine(data[0]) then [] else [data[0]] + FirstLine(data[1..])
  }

  /** Line by line; two characters are skipped after each. */
  function ForLines<T>(data: string, x: T, f: (T, string) -> T): T
    decreases |data|
  {
    if data == [] then x
    else
      var l := FirstLine(data);
      if |l| + 2 <= |data| then ForLines(data[|l| + 2..], f(x, l), f) else f(x, l)
  }

  function Fold<T>(lines: seq<string>, x: T, f: (T, string) -> T): T {
    if lines == [] then x else Fold(lines[1..], f(x, lines[0]), f)
  }

  function Joined(lines: seq<string>): string {
    if lines == [] then [] else lines[0] + "\r\n" + Joined(lines[1..])
  }

  lemma {:induction false} JoinedConcat(a: seq<string>, b: seq<string>)
    ensures Joined(a + b) == Joined(a) + Joined(b)
  {
    if a == [] {
      assert a + b == b;
    } else {
      assert (a + b)[1..] == a[1..] + b;
      JoinedConcat(a[1..], b);
    }
  }

  /** The first line is determined: no line end before it, and one behind it. */
  lemma FirstLineIs(data: string, n: nat)
    requires n <= |data| && EndsNoLine(data[..n]) && (n < |data| ==> EndsLine(data[n]))
    ensures FirstLine(data) == data[..n]
  {
    FirstLineOf(data[..n], data[n..]);
    assert data == data[..n] + data[n..];
  }

  /** What is still to come of x when the buffer is done up to p. */
  function Remaining<T>(data: string, p: nat, x: T, f: (T, string) -> T): T {
    ForLines(if p <= |data| then data[p..] else [], x, f)
  }

  /** One line of the buffer from p on. */
  lemma RemainingStep<T>(data: string, p: nat, x: T, f: (T, string) -> T)
    requires p < |data|
    ensures
      var l := FirstLine(data[p..]);
      Remaining(data, p, x, f) == Remaining(data, p + |l| + 2, f(x, l), f)
  {
    var l := FirstLine(data[p..]);
    var q := p + |l| + 2;
    if q <= |data| {
      assert data[p..][|l| + 2..] == data[q..];
    }
  }

  lemma {:induction false} FoldConcat<T>(a: seq<string>, b: seq<string>, x: T, f: (T, string) -> T)
    ensures Fold(a + b, x, f) == Fold(b, Fold(a, x, f), f)
  {
    if a == [] {
      assert a + b == b;
    } else {
      assert (a + b)[1..] == a[1..] + b;
      FoldConcat(a[1..], b, f(x, a[0]), f);
    }
  }

  lemma FoldOne<T>(l: string, x: T, f: (T, string) -> T)
    ensures Fold([l], x, f) == f(x, l)
  {
    assert [l][1..] == [];
  }

  lemma {:induction false} FirstLineOf(l: string, rest: string)
    requires EndsNoLine(l) && (rest == [] || EndsLine(rest[0]))
    ensures FirstLine(l + rest) == l
  {
    if l == [] {
      assert l + rest == rest;
    } else {
      assert (l + rest)[1..] == l[1..] + rest;
      FirstLineOf(l[1..], rest);
    }
  }

  /** A buffer is taken apart into the lines it was joined from. */
  lemma {:induction false} JoinedParses<T>(lines: seq<string>, x: T, f: (T, string) -> T)
    requires AllLines(lines)
    ensures ForLines(Joined(lines), x, f) == Fold(lines, x, f)
  {
    if lines != [] {
      var l := lines[0];
      var rest := Joined(lines[1..]);
      FirstLineOf(l, "\r\n" + rest);
      assert Joined(lines) == l + ("\r\n" + rest);
      assert Joined(lines)[|l| + 2..] == rest;
      JoinedParses(lines[1..], f(x, l), f);
    }
  }

  /** What every line keeps, the buffer keeps. */
  lemma {:induction false} LinesKeep<T(!new)>(data: string, x: T, f: (T, string) -> T, p: T -> bool)
    requires p(x) && forall y, l :: p(y) ==> p(f(y, l))
    ensures p(ForLines(data, x, f))
    decreases |data|
  {
    if data != [] {
      var l := FirstLine(data);
      if |l| + 2 <= |data| {
        LinesKeep(data[|l| + 2..], f(x, l), f, p);
      }
    }
  }

  /** The lines f(i), f(i + 1) and so on to f(n - 1). */
  function Gather(f: nat -> seq<string>, i: nat, n: nat): seq<string>
    decreases n - i
  {
    if i >= n then [] else f(i) + Gather(f, i + 1, n)
  }

  predicate AllLines(lines: seq<string>) {
    forall k :: 0 <= k < |lines| ==> EndsNoLine(lines[k])
  }

  lemma {:induction false} GatheredLines(f: nat -> seq<string>, i: nat, n: nat)
    requires forall k :: i <= k < n ==> AllLines(f(k))
    ensures AllLines(Gather(f, i, n))
    decreases n - i
  {
    if i < n {
      GatheredLines(f, i + 1, n);
    }
  }

  /** When the lines of each step take its state to the next, all of them take the first
      state to the last. */
  lemma {:induction false} GatheredFold<T>(f: nat -> seq<string>, i: nat, n: nat, state: nat -> T, step: (T, string) -> T)
    requires i <= n && forall k :: i <= k < n ==> Fold(f(k), state(k), step) == state(k + 1)
    ensures Fold(Gather(f, i, n), state(i), step) == state(n)
    decreases n - i
  {
    if i < n {
      FoldConcat(f(i), Gather(f, i + 1, n), state(i), step);
      GatheredFold(f, i + 1, n, state, step);
    }
  }
}

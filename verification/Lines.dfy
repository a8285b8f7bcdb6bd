/** Byte strings seen as newline-terminated lines.

A file is a `string` in which one `char` stands for one byte.  `Complete` lists the
lines that end in a newline, `Torn` is what follows the last newline.  Every other
module speaks about a segment file through these two functions. */
module Lines {

  /** Index of the first newline, or the length when there is none. */
  function FirstNewline(s: string): (i: nat)
    ensures i <= |s|
  {
    if s == [] || s[0] == '\n' then 0 else 1 + FirstNewline(s[1..])
  }

  lemma {:induction false} FirstNewlineIsFirst(s: string)
    ensures var i := FirstNewline(s); i < |s| ==> s[i] == '\n'
    ensures forall j | 0 <= j < FirstNewline(s) :: s[j] != '\n'
  {
    if s != [] && s[0] != '\n' {
      FirstNewlineIsFirst(s[1..]);
      forall j | 0 < j < FirstNewline(s) ensures s[j] != '\n' {
        assert s[j] == s[1..][j - 1];
      }
    }
  }

  ghost predicate IsLine(l: string) {
    l != [] && FirstNewline(l) == |l| - 1
  }

  function Complete(s: string): (ls: seq<string>)
    decreases |s|
  {
    var i := FirstNewline(s);
    if i == |s| then [] else [s[..i + 1]] + Complete(s[i + 1..])
  }

  function Torn(s: string): (t: string)
    decreases |s|
  {
    var i := FirstNewline(s);
    if i == |s| then s else Torn(s[i + 1..])
  }

  /** What repeated buffered `read_line` calls return: the torn tail counts as a line. */
  function Reads(s: string): seq<string> {
    Complete(s) + if Torn(s) == [] then [] else [Torn(s)]
  }

  function Size(ls: seq<string>): nat {
    if ls == [] then 0 else |ls[0]| + Size(ls[1..])
  }

  function Flatten(ls: seq<string>): string {
    if ls == [] then [] else ls[0] + Flatten(ls[1..])
  }

  /** `truncate_torn_tail`: keep everything up to and including the last newline. */
  function TruncateTorn(s: string): string {
    if s == [] || s[|s| - 1] == '\n' then s else TruncateTorn(s[..|s| - 1])
  }

  lemma Assoc<T>(a: seq<T>, b: seq<T>, c: seq<T>)
    ensures (a + b) + c == a + (b + c)
  {
  }

  lemma Skip<T>(a: seq<T>, b: seq<T>, n: nat)
    requires n <= |b|
    ensures (a + b)[|a| + n..] == b[n..]
    ensures (a + b)[..|a| + n] == a + b[..n]
  {
  }

  lemma Shift<T>(s: seq<T>, k: nat, n: nat)
    requires k + n <= |s|
    ensures s[..k + n] == s[..k] + s[k..][..n]
    ensures s[k + n..] == s[k..][n..]
  {
  }

  lemma {:induction false} NewlineAt(s: string, i: nat)
    requires i < |s| && s[i] == '\n' && forall j | 0 <= j < i :: s[j] != '\n'
    ensures FirstNewline(s) == i
  {
    if i > 0 { NewlineAt(s[1..], i - 1); }
  }

  lemma {:induction false} NoNewline(s: string)
    requires '\n' !in s
    ensures FirstNewline(s) == |s| && Complete(s) == [] && Torn(s) == s
  {
    if s != [] { NoNewline(s[1..]); }
  }

  /** A line followed by anything: the one unfolding the proofs below use. */
  lemma ConsLine(l: string, r: string)
    requires IsLine(l)
    ensures Complete(l + r) == [l] + Complete(r) && Torn(l + r) == Torn(r)
  {
    FirstNewlineIsFirst(l);
    NewlineAt(l + r, |l| - 1);
    assert (l + r)[..|l|] == l && (l + r)[|l|..] == r;
  }

  lemma OneLine(l: string)
    requires IsLine(l)
    ensures Complete(l) == [l] && Torn(l) == []
  {
    ConsLine(l, "");
    assert l + "" == l;
  }

  lemma {:induction false} SplitLine(s: string) returns (l: string, r: string)
    requires FirstNewline(s) < |s|
    ensures s == l + r && IsLine(l) && |r| < |s|
    ensures Complete(s) == [l] + Complete(r) && Torn(s) == Torn(r)
  {
    var i := FirstNewline(s);
    l, r := s[..i + 1], s[i + 1..];
    FirstNewlineIsFirst(s);
    NewlineAt(l, i);
    assert s == l + r;
    ConsLine(l, r);
  }

  lemma {:induction false} CompleteAreLines(s: string)
    ensures forall l | l in Complete(s) :: IsLine(l)
    decreases |s|
  {
    if FirstNewline(s) < |s| {
      var l, r := SplitLine(s);
      CompleteAreLines(r);
    }
  }

  /** Appending to a file that ends in a newline leaves its lines alone. */
  lemma {:induction false} CompleteAppend(s: string, t: string)
    requires Torn(s) == []
    ensures Complete(s + t) == Complete(s) + Complete(t) && Torn(s + t) == Torn(t)
    decreases |s|
  {
    if FirstNewline(s) == |s| {
      assert s + t == t;
    } else {
      var l, r := SplitLine(s);
      Assoc(l, r, t);
      ConsLine(l, r + t);
      CompleteAppend(r, t);
      Assoc([l], Complete(r), Complete(t));
    }
  }

  lemma {:induction false} SizeAppend(a: seq<string>, b: seq<string>)
    ensures Size(a + b) == Size(a) + Size(b)
  {
    if a == [] {
      assert a + b == b;
    } else {
      assert (a + b)[1..] == a[1..] + b;
      SizeAppend(a[1..], b);
    }
  }

  lemma SizeShift(ls: seq<string>, k: nat, n: nat)
    requires k + n <= |ls|
    ensures Size(ls[..k + n]) == Size(ls[..k]) + Size(ls[k..][..n])
    ensures ls[k + n..] == ls[k..][n..]
  {
    Shift(ls, k, n);
    SizeAppend(ls[..k], ls[k..][..n]);
  }

  lemma CompleteUnfold(s: string)
    ensures var i := FirstNewline(s);
      Complete(s) == if i == |s| then [] else [s[..i + 1]] + Complete(s[i + 1..])
  {
    hide FirstNewline;
  }

  /** Nothing of a file is lost: its lines and its tail are the whole file. */
  lemma {:induction false} CompleteCovers(s: string)
    ensures Size(Complete(s)) + |Torn(s)| == |s|
    ensures Flatten(Complete(s)) + Torn(s) == s
    decreases |s|
  {
    if FirstNewline(s) < |s| {
      var l, r := SplitLine(s);
      CompleteCovers(r);
      assert Complete(s)[1..] == Complete(r);
      Assoc(l, Flatten(Complete(r)), Torn(r));
    }
  }

  lemma TakeCons(l: string, ls: seq<string>, k: nat)
    requires k <= |ls|
    ensures ([l] + ls)[..k + 1] == [l] + ls[..k] && ([l] + ls)[k + 1..] == ls[k..]
    ensures Size(([l] + ls)[..k + 1]) == |l| + Size(ls[..k])
  {
    assert ([l] + ls[..k])[1..] == ls[..k];
  }

  lemma {:induction false} SplitLines(s: string, k: nat) returns (a: string, b: string)
    requires k <= |Complete(s)|
    ensures s == a + b && |a| == Size(Complete(s)[..k])
    ensures Complete(b) == Complete(s)[k..] && Torn(b) == Torn(s)
    decreases k
  {
    if k == 0 {
      a, b := [], s;
    } else {
      var l, r := SplitLine(s);
      TakeCons(l, Complete(r), k - 1);
      a, b := SplitLines(r, k - 1);
      Assoc(l, a, b);
      a := l + a;
    }
  }

  /** Seeking past the first k lines of a file leaves exactly the other lines. */
  lemma SeekDropsLines(s: string, k: nat)
    requires k <= |Complete(s)|
    ensures var n := Size(Complete(s)[..k]);
      n <= |s| && Complete(s[n..]) == Complete(s)[k..] && Torn(s[n..]) == Torn(s)
  {
    var a, b := SplitLines(s, k);
    Skip(a, b, 0);
  }

  lemma LineEnds(l: string, a: string)
    requires IsLine(l) && (a == [] || a[|a| - 1] == '\n')
    ensures l + a != [] && (l + a)[|l + a| - 1] == '\n'
  {
    FirstNewlineIsFirst(l);
  }

  /** Every file is a part that ends in a newline, or is empty, and its torn tail. */
  lemma {:induction false} SplitTorn(s: string) returns (a: string)
    ensures s == a + Torn(s) && '\n' !in Torn(s)
    ensures Torn(a) == [] && (a == [] || a[|a| - 1] == '\n')
    decreases |s|
  {
    if FirstNewline(s) == |s| {
      FirstNewlineIsFirst(s);
      a := [];
    } else {
      hide FirstNewline, Torn, Complete;
      var l, r := SplitLine(s);
      a := SplitTorn(r);
      LineEnds(l, a);
      ConsLine(l, a);
      Assoc(l, a, Torn(r));
      a := l + a;
    }
  }

  lemma {:induction false} TruncateStops(a: string, t: string)
    requires a == [] || a[|a| - 1] == '\n'
    requires '\n' !in t
    ensures TruncateTorn(a + t) == a
    decreases |t|
  {
    if t == [] {
      assert a + t == a;
    } else {
      assert (a + t)[..|a + t| - 1] == a + t[..|t| - 1];
      TruncateStops(a, t[..|t| - 1]);
    }
  }

  /** Truncation removes exactly the torn tail. */
  lemma TruncateKeepsLines(s: string)
    ensures TruncateTorn(s) + Torn(s) == s
    ensures Complete(TruncateTorn(s)) == Complete(s) && Torn(TruncateTorn(s)) == []
  {
    var a := SplitTorn(s);
    TruncateStops(a, Torn(s));
    CompleteAppend(a, Torn(s));
    NoNewline(Torn(s));
  }
}

/** Splitting text at separators: `str.split` and `str.splitlines`. */
module Text {

  function Split(sep: char -> bool, s: string): (r: seq<string>)
    ensures r != []
  {
    if s == "" then [""]
    else if sep(s[0]) then [""] + Split(sep, s[1..])
    else Push(s[0], Split(sep, s[1..]))
  }

  function Push(c: char, parts: seq<string>): (r: seq<string>)
    requires parts != []
  {
    [[c] + parts[0]] + parts[1..]
  }

  lemma PushSplit(c: char, x: seq<string>, y: seq<string>)
    requires x != []
    ensures Push(c, x + y) == Push(c, x) + y
  {
    assert (x + y)[0] == x[0] && (x + y)[1..] == x[1..] + y;
  }

  /** A separator splits the text in two. */
  lemma {:induction false} SplitAt(sep: char -> bool, a: string, c: char, b: string)
    requires sep(c)
    ensures Split(sep, a + [c] + b) == Split(sep, a) + Split(sep, b)
  {
    var s := a + [c] + b;
    if a == "" {
      assert s[0] == c && s[1..] == b;
    } else {
      SplitAt(sep, a[1..], c, b);
      assert s[1..] == a[1..] + [c] + b && s[0] == a[0];
      if sep(a[0]) { assert Split(sep, s) == [""] + Split(sep, s[1..]); }
      else { PushSplit(a[0], Split(sep, a[1..]), Split(sep, b)); }
    }
  }

  lemma {:induction false} SplitWhole(sep: char -> bool, s: string)
    requires forall c | c in s :: !sep(c)
    ensures Split(sep, s) == [s]
  {
    if s != "" {
      assert s[0] in s;
      SplitWhole(sep, s[1..]);
      assert [s[0]] + s[1..] == s;
    }
  }

  lemma {:induction false} PartsHaveNoSeparator(sep: char -> bool, s: string)
    ensures forall p | p in Split(sep, s) :: forall c | c in p :: !sep(c)
  {
    if s != "" {
      PartsHaveNoSeparator(sep, s[1..]);
      var rest := Split(sep, s[1..]);
      assert rest[0] in rest;
      assert forall p | p in rest[1..] :: p in rest;
    }
  }
}

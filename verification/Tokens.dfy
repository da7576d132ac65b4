/** Words in a text, as strtok finds them between spaces. */
module Tokens {

  function WordRun(s: string): (k: nat)
    ensures k <= |s|
  {
    if s == "" || s[0] == ' ' then 0 else 1 + WordRun(s[1..])
  }

  function Split(s: string): seq<string>
    decreases |s|
  {
    if s == "" then []
    else if s[0] == ' ' then Split(s[1..])
    else
      var k := WordRun(s);
      [s[..k]] + Split(s[k..])
  }

  predicate IsWord(w: string) {
    w != "" && ' ' !in w
  }

  /** The words, each followed by a space. */
  function Spaced(words: seq<string>): string {
    if words == [] then "" else words[0] + " " + Spaced(words[1..])
  }

  lemma {:induction false} WordEnds(w: string, rest: string)
    requires ' ' !in w && (rest == "" || rest[0] == ' ')
    ensures WordRun(w + rest) == |w|
  {
    if w == "" {
      assert w + rest == rest;
    } else {
      assert (w + rest)[1..] == w[1..] + rest;
      WordEnds(w[1..], rest);
    }
  }

  lemma SplitFirst(w: string, rest: string)
    requires IsWord(w) && (rest == "" || rest[0] == ' ')
    ensures Split(w + rest) == [w] + Split(rest)
  {
    WordEnds(w, rest);
    assert (w + rest)[0] == w[0];
    assert (w + rest)[..|w|] == w && (w + rest)[|w|..] == rest;
  }

  /** Splitting finds the words again. */
  lemma {:induction false} SplitSpaced(words: seq<string>)
    requires forall w :: w in words ==> IsWord(w)
    ensures Split(Spaced(words)) == words
  {
    if words != [] {
      var rest := Spaced(words[1..]);
      SplitSpaced(words[1..]);
      SplitFirst(words[0], " " + rest);
      assert words[0] + " " + rest == words[0] + (" " + rest);
      assert (" " + rest)[1..] == rest;
      assert Split(" " + rest) == Split(rest);
    }
  }
}

/** Whitespace-separated words: Rust's `split_whitespace`, and `join`. */
module Texts {

  /** `char::is_whitespace`: the Unicode White_Space property. */
  predicate IsSpace(c: char) {
    ('\t' <= c <= '\r') || c == ' ' || c == '\U{0085}' || c == '\U{00A0}' || c == '\U{1680}' ||
    ('\U{2000}' <= c <= '\U{200A}') || c == '\U{2028}' || c == '\U{2029}' || c == '\U{202F}' ||
    c == '\U{205F}' || c == '\U{3000}'
  }

  /** A word: non-empty, without whitespace. */
  predicate IsWord(w: string) {
    w != [] && forall i | 0 <= i < |w| :: !IsSpace(w[i])
  }

  function TokenLen(s: string): (k: nat)
    ensures k <= |s|
    ensures forall i | 0 <= i < k :: !IsSpace(s[i])
    ensures k < |s| ==> IsSpace(s[k])
  {
    if s == [] || IsSpace(s[0]) then 0 else 1 + TokenLen(s[1..])
  }

  /** `split_whitespace`. */
  function Words(s: string): (ws: seq<string>)
    ensures forall i | 0 <= i < |ws| :: IsWord(ws[i])
    decreases |s|
  {
    if s == [] then []
    else if IsSpace(s[0]) then Words(s[1..])
    else
      var k := TokenLen(s);
      [s[..k]] + Words(s[k..])
  }

  /** `join(sep)`: the strings with `sep` between each two. */
  function Join(ws: seq<string>, sep: string): string {
    if ws == [] then []
    else if |ws| == 1 then ws[0]
    else ws[0] + sep + Join(ws[1..], sep)
  }

  /** Splitting at whitespace undoes joining with single spaces, as long as
      every part is a non-empty run of non-whitespace. */
  lemma {:induction false} WordsOfJoin(ws: seq<string>)
    requires forall i | 0 <= i < |ws| :: IsWord(ws[i])
    ensures Words(Join(ws, " ")) == ws
  {
    if ws == [] {
    } else {
      var w := ws[0];
      var s := Join(ws, " ");
      if |ws| == 1 {
        assert s == w;
        assert TokenLen(s) == |w|;
        assert s[..|w|] == w && s[|w|..] == [];
      } else {
        var tail := Join(ws[1..], " ");
        assert s == w + " " + tail;
        assert IsSpace(s[|w|]);
        assert TokenLen(s) == |w|;
        assert s[..|w|] == w;
        assert s[|w|..] == " " + tail;
        assert (" " + tail)[1..] == tail;
        WordsOfJoin(ws[1..]);
        assert ws == [w] + ws[1..];
      }
    }
  }
}

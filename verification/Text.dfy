/** Text as a sequence of Unicode scalar values, with the UTF-8 lengths and searches the source uses. */
module Text {
  import opened Wrappers

  /** `char::is_alphabetic` and `char::is_alphanumeric`: constants without a value, so every result holds for any tables. */
  const ALPHABETIC: set<char>
  const ALPHANUMERIC: set<char>

  /** `char::len_utf8`. */
  function Width(c: char): (w: nat)
    ensures 1 <= w <= 4
  {
    var code := c as int;
    if code < 0x80 then 1 else if code < 0x800 then 2 else if code < 0x1_0000 then 3 else 4
  }

  /** `str::len`: the number of UTF-8 bytes. */
  function ByteLen(s: string): (n: nat)
    ensures n >= |s|
  {
    if s == [] then 0 else ByteLen(s[..|s| - 1]) + Width(s[|s| - 1])
  }

  lemma {:induction false} ByteLenAppend(a: string, b: string)
    ensures ByteLen(a + b) == ByteLen(a) + ByteLen(b)
  {
    if b == [] {
      assert a + b == a;
    } else {
      var front := b[..|b| - 1];
      ByteLenAppend(a, front);
      assert (a + b)[..|a + b| - 1] == a + front;
    }
  }

  predicate CharAt(s: string, c: char, k: nat) {
    k < |s| && s[k] == c
  }

  /** `str::find` of one character, from a position on. */
  function FindChar(s: string, c: char, from: nat): (r: Option<nat>)
    requires from <= |s|
    ensures r.Some? ==> from <= r.value && CharAt(s, c, r.value) && forall k | from <= k < r.value :: !CharAt(s, c, k)
    ensures r.None? ==> forall k: nat | from <= k :: !CharAt(s, c, k)
    decreases |s| - from
  {
    if from == |s| then None
    else if CharAt(s, c, from) then Some(from)
    else FindChar(s, c, from + 1)
  }

  /** Whether the interpolation marker `${` starts at position `k`. */
  predicate MarkerAt(s: string, k: nat) {
    k + 1 < |s| && s[k] == '$' && s[k + 1] == '{'
  }

  /** `str::find("${")`, from a position on. */
  function FindMarker(s: string, from: nat): (r: Option<nat>)
    requires from <= |s|
    ensures r.Some? ==> from <= r.value && MarkerAt(s, r.value) && forall k | from <= k < r.value :: !MarkerAt(s, k)
    ensures r.None? ==> forall k: nat | from <= k :: !MarkerAt(s, k)
    decreases |s| - from
  {
    if from == |s| then None
    else if MarkerAt(s, from) then Some(from)
    else FindMarker(s, from + 1)
  }

  /** `VariableName::new` accepts exactly these names. */
  predicate ValidVariableName(name: string) {
    && name != []
    && (name[0] in ALPHABETIC || name[0] == '_')
    && forall k | 1 <= k < |name| :: name[k] in ALPHANUMERIC || name[k] == '_'
  }

  /** `str::to_ascii_lowercase`. */
  function LowerChar(c: char): char {
    if 'A' <= c <= 'Z' then (c as int + 32) as char else c
  }

  function Lower(s: string): (r: string)
    ensures |r| == |s|
  {
    seq(|s|, i requires 0 <= i < |s| => LowerChar(s[i]))
  }

  predicate OccursAt(s: string, part: string, i: nat) {
    i + |part| <= |s| && s[i..i + |part|] == part
  }

  /** `str::contains`. */
  predicate Contains(s: string, part: string) {
    exists i: nat | i <= |s| :: OccursAt(s, part, i)
  }
}

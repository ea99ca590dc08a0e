/**
 The part of Python's `str` that the service relies on: `strip()` with no
 argument, and the truth value of the stripped string (`not text.strip()`).
 */
module Text {

  /** Python's `str.isspace()` for one code point: the characters whose
      bidirectional class is WS, B or S, or whose category is Zs. */
  predicate IsSpace(c: char) {
    var n := c as int;
    || (0x09 <= n <= 0x0D)        // \t \n \v \f \r
    || (0x1C <= n <= 0x1F)        // file, group, record and unit separators
    || n == 0x20                  // space
    || n == 0x85                  // next line
    || n == 0xA0                  // no-break space
    || n == 0x1680                // ogham space mark
    || (0x2000 <= n <= 0x200A)    // en quad .. hair space
    || n == 0x2028 || n == 0x2029 // line and paragraph separators
    || n == 0x202F                // narrow no-break space
    || n == 0x205F                // medium mathematical space
    || n == 0x3000                // ideographic space
  }

  /** The reference notion of a blank text: every character is whitespace
      (the empty string included). */
  ghost predicate IsBlank(s: string) {
    forall i :: 0 <= i < |s| ==> IsSpace(s[i])
  }

  /** The number of whitespace characters at the start of `s`: where
      `s.lstrip()` begins. */
  function StripStart(s: string): (k: nat)
    ensures k <= |s|
    ensures forall i :: 0 <= i < k ==> IsSpace(s[i])
    ensures k < |s| ==> !IsSpace(s[k])
  {
    if s == [] || !IsSpace(s[0]) then 0 else 1 + StripStart(s[1..])
  }

  /** The length of `s` without its trailing whitespace: where `s.rstrip()`
      ends. */
  function StripEnd(s: string): (e: nat)
    ensures e <= |s|
    ensures forall i :: e <= i < |s| ==> IsSpace(s[i])
    ensures e > 0 ==> !IsSpace(s[e - 1])
  {
    if s == [] || !IsSpace(s[|s| - 1]) then |s| else StripEnd(s[..|s| - 1])
  }

  /** `s.strip()`: the part of `s` between its leading and its trailing
      whitespace. It is empty exactly when `s` is blank; otherwise it is a
      slice of `s` that begins and ends with a non-whitespace character, and
      everything cut off on either side is whitespace. */
  function Strip(s: string): (r: string)
    ensures r == [] <==> IsBlank(s)
    ensures r != [] ==>
      && StripStart(s) < StripEnd(s)
      && r == s[StripStart(s)..StripEnd(s)]
      && !IsSpace(r[0]) && !IsSpace(r[|r| - 1])
  {
    var k := StripStart(s);
    if k == |s| then [] else s[k..StripEnd(s)]
  }

  /** A slice of `s` with only whitespace around it and none at its ends is
      what `Strip` returns: the stripped form is determined by these facts. */
  lemma {:induction false} StripUnique(s: string, a: nat, b: nat)
    requires a < b <= |s|
    requires forall i :: 0 <= i < a ==> IsSpace(s[i])
    requires forall i :: b <= i < |s| ==> IsSpace(s[i])
    requires !IsSpace(s[a]) && !IsSpace(s[b - 1])
    ensures Strip(s) == s[a..b]
  {
    assert StripStart(s) == a;
    assert StripEnd(s) == b;
  }

  /** Stripping twice changes nothing more than stripping once. */
  lemma {:induction false} StripIdempotent(s: string)
    ensures Strip(Strip(s)) == Strip(s)
  {
    var r := Strip(s);
    if r != [] {
      StripUnique(r, 0, |r|);
      assert r[0..|r|] == r;
    }
  }
}

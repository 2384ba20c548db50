/** C strings: the first NUL character, if there is one, ends the text. */
module CStrings {

  /** The characters before the first stop character. */
  function Before(s: string, stops: set<char>): (front: string)
    ensures |front| <= |s| && front == s[..|front|]
    ensures forall k :: 0 <= k < |front| ==> front[k] !in stops
    ensures |front| < |s| ==> s[|front|] in stops
  {
    if s == [] || s[0] in stops then [] else [s[0]] + Before(s[1..], stops)
  }

  function Text(s: string): string {
    Before(s, {'\0'})
  }

  lemma BeforeStep(s: string, stops: set<char>)
    requires s != [] && s[0] !in stops
    ensures Before(s, stops)[0] == s[0] && Before(s, stops)[1..] == Before(s[1..], stops)
  {
  }

  lemma NoEndInside(s: string)
    requires '\0' !in s
    ensures Text(s) == s
  {
  }

  lemma TextOfText(s: string)
    ensures '\0' !in Text(s) && Text(Text(s)) == Text(s)
  {
    NoEndInside(Text(s));
  }
}

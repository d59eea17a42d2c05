/** White space as strings.TrimSpace removes it. */
module Text {
  /** Unicode white space, as trimmed from names. */
  predicate IsSpace(c: char) {
    var k := c as int;
    || 9 <= k <= 13 || k == 32 || k == 0x85 || k == 0xA0 || k == 0x1680
    || 0x2000 <= k <= 0x200a || k == 0x2028 || k == 0x2029 || k == 0x202f || k == 0x205f || k == 0x3000
  }

  /** The code points with the White_Space property of Unicode, one by one. */
  const WhiteSpace: set<int> :=
    { 0x9, 0xA, 0xB, 0xC, 0xD, 0x20, 0x85, 0xA0, 0x1680,
      0x2000, 0x2001, 0x2002, 0x2003, 0x2004, 0x2005, 0x2006, 0x2007, 0x2008, 0x2009, 0x200A,
      0x2028, 0x2029, 0x202F, 0x205F, 0x3000 }

  lemma SpacesAreWhiteSpace(c: char)
    ensures IsSpace(c) <==> c as int in WhiteSpace
  {
  }

  predicate Blank(name: string) {
    forall i :: 0 <= i < |name| ==> IsSpace(name[i])
  }

  /** The name without white space at either end. */
  function Trim(name: string): string
    decreases |name|
  {
    if name == "" then name
    else if IsSpace(name[0]) then Trim(name[1..])
    else if IsSpace(name[|name| - 1]) then Trim(name[..|name| - 1])
    else name
  }

  /** A name is blank exactly when trimming leaves nothing of it. */
  lemma {:induction false} BlankIsTrimmed(name: string)
    ensures Blank(name) <==> Trim(name) == ""
    decreases |name|
  {
    hide IsSpace;
    if name != "" {
      if IsSpace(name[0]) {
        BlankIsTrimmed(name[1..]);
        assert name == [name[0]] + name[1..];
      } else if IsSpace(name[|name| - 1]) {
        BlankIsTrimmed(name[..|name| - 1]);
        assert name[..|name| - 1][0] == name[0];
      }
    }
  }
}

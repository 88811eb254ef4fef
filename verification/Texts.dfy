/** Texts as lists of characters. */
module Texts {

  datatype Text = End | Char(c: char, rest: Text)

  function Append(a: Text, b: Text): Text {
    match a case End => b case Char(c, rest) => Char(c, Append(rest, b))
  }

  lemma {:induction false} AppendAssoc(a: Text, b: Text, c: Text)
    ensures Append(Append(a, b), c) == Append(a, Append(b, c))
  {
    if a.Char? { AppendAssoc(a.rest, b, c); }
  }
}

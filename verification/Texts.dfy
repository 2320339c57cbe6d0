/** Texts put together from pieces, told by where each piece stands in them. */
module Texts {

  predicate Occurs(text: string, pattern: string, i: nat) {
    i + |pattern| <= |text| && text[i..i + |pattern|] == pattern
  }

  /** One separator, from the end of a piece to the next one. */
  predicate Parted(text: string, separator: string, from: nat, to: nat) {
    to == from + |separator| && Occurs(text, separator, from)
  }

  /**
   Each piece stands in the text at its place: the first one at its beginning, one separator between neighbours, the last one
   at its end, and nothing else.
   */
  ghost predicate Stands(text: string, pieces: seq<string>, separator: string, at: seq<nat>) {
    && |at| == |pieces|
    && (pieces == [] ==> text == "")
    && (pieces != [] ==> at[0] == 0 && at[|at| - 1] + |pieces[|at| - 1]| == |text|)
    && (forall i :: 0 <= i < |at| ==> Occurs(text, pieces[i], at[i]))
    && (forall i :: 0 <= i < |at| - 1 ==> Parted(text, separator, at[i] + |pieces[i]|, at[i + 1]))
  }

  ghost predicate Joins(text: string, pieces: seq<string>, separator: string) {
    exists at :: Stands(text, pieces, separator, at)
  }

  lemma JoinsNothing(separator: string)
    ensures Joins("", [], separator)
  {
    assert Stands("", [], separator, []);
  }

  lemma JoinsOne(piece: string, separator: string)
    ensures Joins(piece, [piece], separator)
  {
    assert Stands(piece, [piece], separator, [0]);
  }

  /** One more piece behind the others. */
  lemma JoinsOneMore(text: string, pieces: seq<string>, separator: string, last: string)
    requires pieces != [] && Joins(text, pieces, separator)
    ensures Joins(text + separator + last, pieces + [last], separator)
  {
    var at :| Stands(text, pieces, separator, at);
    StandsOnwards(text, pieces, separator, at, last);
  }

  lemma OccursOnwards(text: string, more: string, pattern: string, i: nat)
    requires Occurs(text, pattern, i)
    ensures Occurs(text + more, pattern, i)
  {
    assert (text + more)[i..i + |pattern|] == text[i..i + |pattern|];
  }

  lemma StandsOnwards(text: string, pieces: seq<string>, separator: string, at: seq<nat>, last: string)
    requires pieces != [] && Stands(text, pieces, separator, at)
    ensures Stands(text + separator + last, pieces + [last], separator, at + [|text| + |separator|])
  {
    var whole, all, places := text + separator + last, pieces + [last], at + [|text| + |separator|];
    WholeHolds(text, separator, last);
    assert whole == text + (separator + last);
    forall i | 0 <= i < |places| ensures Occurs(whole, all[i], places[i]) {
      if i < |at| {
        OccursOnwards(text, separator + last, pieces[i], at[i]);
      }
    }
    forall i | 0 <= i < |places| - 1 ensures Parted(whole, separator, places[i] + |all[i]|, places[i + 1]) {
      if i < |at| - 1 {
        assert Parted(text, separator, at[i] + |pieces[i]|, at[i + 1]);
        OccursOnwards(text, separator + last, separator, at[i] + |pieces[i]|);
      }
    }
  }

  lemma WholeHolds(text: string, separator: string, last: string)
    ensures Occurs(text + separator + last, separator, |text|)
    ensures Occurs(text + separator + last, last, |text| + |separator|)
  {
    OccursOnwards(text + separator, last, separator, |text|);
  }

  // ---------- nothing in between ----------

  lemma NoSeparator(text: string, last: string)
    ensures text + "" + last == text + last && "" + last == last
  {
  }

  lemma NothingJoined(text: string, separator: string)
    requires Joins(text, [], separator)
    ensures text == ""
  {
  }

  /** One more piece right behind the others, if there are any. */
  lemma JoinsNext(text: string, pieces: seq<string>, last: string)
    requires Joins(text, pieces, "")
    ensures Joins(text + last, pieces + [last], "")
  {
    NoSeparator(text, last);
    if pieces == [] {
      NothingJoined(text, "");
      JoinsOne(last, "");
      NoPieces(last);
    } else {
      JoinsOneMore(text, pieces, "", last);
    }
  }

  lemma NoPieces(last: string)
    ensures [] + [last] == [last]
  {
  }

  // ---------- texts without line breaks ----------

  /** Free of the characters that end a line. */
  predicate OneLineText(text: string) {
    '\n' !in text && '\r' !in text
  }

  lemma OneLineConcat(a: string, b: string)
    ensures OneLineText(a + b) <==> OneLineText(a) && OneLineText(b)
  {
  }

  lemma Sandwiched(a: string, b: string, c: string)
    requires OneLineText(a) && OneLineText(b) && OneLineText(c)
    ensures OneLineText(a + b + c)
  {
    OneLineConcat(a, b);
    OneLineConcat(a + b, c);
  }

  lemma Regrouped<T>(a: seq<T>, b: seq<T>, c: seq<T>)
    ensures (a + b) + c == a + (b + c)
  {
  }

  lemma SplitLast<T>(kept: seq<T>, items: seq<T>)
    requires items != []
    ensures kept + items == (kept + items[..|items| - 1]) + [items[|items| - 1]]
    ensures items == items[..|items| - 1] + [items[|items| - 1]]
  {
  }
}

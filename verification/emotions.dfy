/** The two emotion tables of the application: the dashboard's
    `EMOTION_LABELS` (code to label) and the student page's `emojis`
    (button id to label), which must agree. */
module Emotions {
  import opened Basics
  import opened Text
  import opened Seqs

  /** `EMOTION_LABELS`, codes 1 to 9 in order. */
  const Labels: seq<string> :=
    ["Muito Feliz", "Feliz", "Desmotivado", "Indiferente", "Surpreso",
     "Triste", "Irritado", "Ansioso", "Apaixonado"]

  /** `EMOTION_LABELS[code]`, absent for every code outside the table. */
  function EmotionLabel(code: int): (r: Option<string>)
    ensures r.Some? <==> 1 <= code <= 9
    ensures r.Some? ==> r.value in Labels
  {
    if 1 <= code <= 9 then Some(Labels[code - 1]) else None
  }

  /** Different codes have different labels, so a label identifies its code. */
  lemma EmotionLabelInjective(a: int, b: int)
    requires EmotionLabel(a).Some? && EmotionLabel(a) == EmotionLabel(b)
    ensures a == b
  {
  }

  /** One emotion button of the student page (its `label` is `emotion` here; the image is not modelled). */
  datatype Emoji = Emoji(id: string, emotion: string)

  /** The `emojis` array. */
  const EmojiTable: seq<Emoji> :=
    [Emoji("1", "Muito Feliz"), Emoji("2", "Feliz"), Emoji("3", "Desmotivado"),
     Emoji("4", "Indiferente"), Emoji("5", "Surpreso"), Emoji("6", "Triste"),
     Emoji("7", "Irritado"), Emoji("8", "Ansioso"), Emoji("9", "Apaixonado")]

  /** Every button id reads, through `parseInt`, as a code the dashboard
      knows, and the dashboard shows that code under the button's label. */
  lemma EmojiTableMatchesLabels()
    ensures |EmojiTable| == 9
    ensures forall i :: 0 <= i < |EmojiTable| ==>
              && |EmojiTable[i].id| == 1
              && ParseInt(EmojiTable[i].id) == Some(i + 1)
              && EmotionLabel(i + 1) == Some(EmojiTable[i].emotion)
  {
    forall i | 0 <= i < |EmojiTable|
      ensures |EmojiTable[i].id| == 1
      ensures ParseInt(EmojiTable[i].id) == Some(i + 1)
      ensures EmotionLabel(i + 1) == Some(EmojiTable[i].emotion)
    {
      assert EmojiTable[i].id == [DigitChar(i + 1)] && EmojiTable[i].emotion == Labels[i] by {
        if i == 0 {} else if i == 1 {} else if i == 2 {} else if i == 3 {} else if i == 4 {}
        else if i == 5 {} else if i == 6 {} else if i == 7 {} else {}
      }
      ParseDigit(DigitChar(i + 1));
    }
  }

  lemma ParseDigit(c: char)
    requires IsDigit(c) && c != '0'
    ensures ParseInt([c]) == Some(DigitValue(c))
  {
    assert IsNumeral([c]);
    assert [c][..|[c]| - 1] == [];
    assert DigitsValue([c]) == DigitsValue([]) * 10 + DigitValue(c);
  }

  /** The emoji ids are pairwise different. */
  lemma EmojiIdsDistinct()
    ensures forall i, j :: 0 <= i < j < |EmojiTable| ==> EmojiTable[i].id != EmojiTable[j].id
  {
    EmojiTableMatchesLabels();
  }
}

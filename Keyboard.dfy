/** The reply keyboards the bot shows: the confirmation keyboard's buttons,
    the words the confirmation handler compares the lower-cased reply against,
    and the car-class labels. */
module Keyboard {
  import opened Text
  import opened Pricing

  /** The confirmation keyboard's buttons and the lower-cased words the
      confirmation handler compares against. */
  const ConfirmButton: string := "Підтверджую"
  const BackButton: string := "Назад"
  const ConfirmWord: string := "підтверджую"
  const BackWord: string := "назад"

  /** Pressing a keyboard button reaches the branch the button stands for:
      the confirmation buttons lower-case to the words compared against, and
      the car-type labels are already lower case. */
  lemma ButtonsSelectBranches()
    ensures Lower(ConfirmButton) == ConfirmWord
    ensures Lower(BackButton) == BackWord
    ensures forall t: Tier :: IsLower(Label(t))
  {
    ConfirmButtonLower();
    BackButtonLower();
  }

  lemma ConfirmButtonLower()
    ensures Lower(ConfirmButton) == ConfirmWord
  {
    assert ConfirmButton == ['П'] + ConfirmWord[1..];
    LowerFixed(ConfirmWord[1..]);
  }

  lemma BackButtonLower()
    ensures Lower(BackButton) == BackWord
  {
    assert BackButton == ['Н'] + BackWord[1..];
    LowerFixed(BackWord[1..]);
  }
}

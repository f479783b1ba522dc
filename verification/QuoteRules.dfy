/** Which apostrophes of a line are text: what the two passes are for, said of one run at a time. */
module QuoteRules {
  import opened Quotes

  /** So many apostrophes are italic, bold, or both. */
  predicate MarksUpSome(n: nat) { n == 2 || n == 3 || n == 5 }

  /** A run keeps as many apostrophes at its end as can mark up anything; those in front of them become text. */
  lemma KeptIsLongest(run: string)
    requires IsRun(run) && |run| >= 2
    ensures Moved(run) + Kept(run) == run && MarksUpSome(|Kept(run)|)
    ensures forall n: nat :: MarksUpSome(n) && n <= |run| ==> n <= |Kept(run)|
  {
    KeptMarksUp(run);
  }

  ghost predicate EndsInSpace(text: string) { exists front: string :: text == front + " " }

  /** The last word has just one letter, which a space precedes. */
  ghost predicate EndsInLetter(text: string) {
    exists front: string, letter: char :: letter != ' ' && text == front + " " + [letter]
  }

  lemma WordBeforeIs(text: string)
    ensures WordBefore(text) == Space <==> EndsInSpace(text)
    ensures WordBefore(text) == SingleLetter <==> EndsInLetter(text)
  {
    var n := |text|;
    if text != "" && text[n - 1] == ' ' {
      assert text == text[..n - 1] + " ";
    } else if n >= 2 && text[n - 2] == ' ' {
      assert text == text[..n - 2] + " " + [text[n - 1]];
    }
    forall front: string, letter: char | letter != ' ' && text == front + " " + [letter]
      ensures text[n - 2] == ' ' && text[n - 1] == letter
    {
    }
  }

  /**
   With an odd number of both, the bold run that turns into an apostrophe and an italic one is the first behind a word
   of one letter; if there is none, the first that is not behind a space; else the first of all.
   */
  lemma ChosenIsBest(arr: seq<string>, k: int, j: nat)
    requires k == Chosen(arr) >= 0 && IsBoldRun(arr, j)
    ensures EndsInLetter(arr[j - 1]) ==> EndsInLetter(arr[k - 1]) && k <= j
    ensures !EndsInLetter(arr[k - 1]) && !EndsInSpace(arr[j - 1]) ==> !EndsInSpace(arr[k - 1]) && k <= j
    ensures EndsInSpace(arr[k - 1]) ==> k <= j
  {
    WordBeforeIs(arr[k - 1]);
    WordBeforeIs(arr[j - 1]);
  }
}

/** The editor's top bar: the label saying how long ago the project was saved. */
module TopBar {
  import opened Wrappers

  /** The character of a decimal digit. */
  function DigitChar(d: nat): (c: char)
    requires d < 10
    ensures '0' <= c <= '9' && c as int - '0' as int == d
  {
    ('0' as int + d) as char
  }

  /** The decimal form of `n`, as `format!("{}")` prints an unsigned integer. */
  function NatToString(n: nat): (s: string)
    ensures s != [] && forall i :: 0 <= i < |s| ==> '0' <= s[i] <= '9'
    decreases n
  {
    if n < 10 then [DigitChar(n)] else NatToString(n / 10) + [DigitChar(n % 10)]
  }

  /** The value of a string of decimal digits. */
  function DigitsValue(s: string): nat
    requires forall i :: 0 <= i < |s| ==> '0' <= s[i] <= '9'
  {
    if s == [] then 0
    else DigitsValue(s[..|s| - 1]) * 10 + (s[|s| - 1] as int - '0' as int)
  }

  /** Reading the printed digits back gives the number. */
  lemma {:induction false} NatToStringRoundTrip(n: nat)
    ensures DigitsValue(NatToString(n)) == n
    decreases n
  {
    if n >= 10 {
      NatToStringRoundTrip(n / 10);
      var s := NatToString(n);
      assert s[..|s| - 1] == NatToString(n / 10);
    }
  }

  /** Distinct numbers print differently. */
  lemma NatToStringInjective(m: nat, n: nat)
    requires m != n
    ensures NatToString(m) != NatToString(n)
  {
    NatToStringRoundTrip(m);
    NatToStringRoundTrip(n);
  }

  /**
   * The label for a save `since` seconds old, or for no save: the if-chain
   * `spawn_top_bar` and `update_top_bar_timer` both run.
   */
  function SaveLabel(since: Option<nat>): string {
    if since.None? then "Not saved yet!"
    else if since.value == 1 then "Saved 1 sec ago"
    else if since.value < 60 then "Saved " + NatToString(since.value) + " secs ago"
    else if since.value < 120 then "Saved 1 min ago"
    else "Saved " + NatToString(since.value / 60) + " mins ago"
  }

  /** Which arm of the if-chain a value takes; every value takes exactly one. */
  datatype Arm = NotSaved | OneSec | Secs | OneMin | Mins

  function ArmOf(since: Option<nat>): (a: Arm)
    ensures a == NotSaved <==> since.None?
    ensures a == OneSec <==> since == Some(1)
    ensures a == Secs <==> since.Some? && since.value < 60 && since.value != 1
    ensures a == OneMin <==> since.Some? && 60 <= since.value < 120
    ensures a == Mins <==> since.Some? && since.value >= 120
  {
    if since.None? then NotSaved
    else if since.value == 1 then OneSec
    else if since.value < 60 then Secs
    else if since.value < 120 then OneMin
    else Mins
  }

  /** The label of each arm. Zero seconds reads "Saved 0 secs ago". */
  lemma SaveLabelArms(since: Option<nat>)
    ensures ArmOf(since) == NotSaved ==> SaveLabel(since) == "Not saved yet!"
    ensures ArmOf(since) == OneSec ==> SaveLabel(since) == "Saved 1 sec ago"
    ensures ArmOf(since) == Secs ==> SaveLabel(since) == "Saved " + NatToString(since.value) + " secs ago"
    ensures ArmOf(since) == OneMin ==> SaveLabel(since) == "Saved 1 min ago"
    ensures ArmOf(since) == Mins ==> SaveLabel(since) == "Saved " + NatToString(since.value / 60) + " mins ago"
  {
  }

  /** From one minute on, the label shows whole minutes only: the seconds within the minute do not matter. */
  lemma SaveLabelWholeMinutes(n: nat)
    requires n >= 60
    ensures SaveLabel(Some(n)) == SaveLabel(Some(60 * (n / 60)))
  {
  }

  /** The seconds label carries the printed number between a fixed prefix and suffix. */
  lemma SecsLabelDigits(k: nat)
    ensures |"Saved " + NatToString(k) + " secs ago"| == |NatToString(k)| + 15
    ensures ("Saved " + NatToString(k) + " secs ago")[6..|NatToString(k)| + 6] == NatToString(k)
  {
  }

  /** Below a minute, different ages give different labels. */
  lemma SaveLabelSecondsDistinct(m: nat, n: nat)
    requires m < 60 && n < 60 && m != n
    ensures SaveLabel(Some(m)) != SaveLabel(Some(n))
  {
    SecsLabelDigits(m);
    SecsLabelDigits(n);
    NatToStringInjective(m, n);
  }

  /** Any saved state reads differently from "never saved". */
  lemma SavedLabelsDiffer(n: nat)
    ensures SaveLabel(Some(n)) != SaveLabel(None)
  {
    assert SaveLabel(Some(n))[0] == 'S';
  }

  /** The label text of the top bar. */
  class TopBarSaveTimer {
    var texts: seq<string>

    /** `spawn_top_bar`: one text showing the label for the current save age. */
    constructor (since: Option<nat>)
      ensures texts == [SaveLabel(since)]
    {
      texts := [SaveLabel(since)];
    }

    /**
     * `update_top_bar_timer`: unless the timer finished, no text changes;
     * when it did, every text shows the label for the current save age.
     */
    method UpdateTopBarTimer(finished: bool, since: Option<nat>)
      modifies this
      ensures !finished ==> texts == old(texts)
      ensures finished ==> |texts| == |old(texts)| && forall i :: 0 <= i < |texts| ==> texts[i] == SaveLabel(since)
    {
      if !finished {
        return;
      }
      for i := 0 to |texts|
        invariant |texts| == |old(texts)|
        invariant forall j :: 0 <= j < i ==> texts[j] == SaveLabel(since)
      {
        texts := texts[i := SaveLabel(since)];
      }
    }
  }
}

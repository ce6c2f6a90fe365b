/**
 * `inferStatus`: the three-way classification of an offer as tendered, active
 * or awarded, from its status text and its boolean `awarded` flag.
 */
module Status {
  import opened Wrappers
  import opened Text
  import opened Offers

  datatype Status = Tendered | Active | Awarded

  const StatusKeys: seq<string> := ["status", "offer_status", "state"]

  /** The picked status text, lower-cased; "" when the offer has none. */
  function StatusText(o: Offer): string {
    Lower(FirstOf(o, StatusKeys, AsText).GetOr(""))
  }

  /** Text that reads as awarded. */
  predicate AwardText(s: string) {
    Contains(s, "award") || s == "adjudicada" || s == "awarded"
  }

  /** Text that reads as still running. */
  predicate ActiveText(s: string) {
    Contains(s, "open") || Contains(s, "active") || Contains(s, "ongoing")
  }

  /** `o.awarded === true`: only the boolean `true` counts, not a truthy string. */
  predicate AwardedFlag(o: Offer) {
    Field(o, "awarded") == Some(Bool(true))
  }

  /** `inferStatus(o)`. */
  function InferStatus(o: Offer): Status {
    var s := StatusText(o);
    if AwardText(s) then Awarded
    else if ActiveText(s) then Active
    else if AwardedFlag(o) then Awarded
    else Tendered
  }

  /** Award text decides, whatever the flag says. */
  lemma AwardTextWins(o: Offer)
    requires AwardText(StatusText(o))
    ensures InferStatus(o) == Awarded
  {
  }

  /** Active text beats a `true` flag: the flag is read only when the text says nothing. */
  lemma ActiveTextBeatsFlag(o: Offer)
    requires !AwardText(StatusText(o)) && ActiveText(StatusText(o))
    ensures InferStatus(o) == Active
  {
  }

  /** With a silent text, the offer is awarded exactly when the flag is `true`, and never active. */
  lemma SilentTextUsesFlag(o: Offer)
    requires !AwardText(StatusText(o)) && !ActiveText(StatusText(o))
    ensures InferStatus(o) == Awarded <==> AwardedFlag(o)
    ensures InferStatus(o) != Active
  {
  }

  /** The comparison with "awarded" adds nothing: such a text already contains "award". */
  lemma AwardedEqualityRedundant(s: string)
    requires s == "awarded"
    ensures Contains(s, "award")
  {
    assert OccursAt(s, "award", 0) by { assert s[0..5] == "award"; }
  }

  /** Every character of an occurring string occurs in the text. */
  lemma ContainsHasChar(s: string, sub: string, k: nat)
    requires Contains(s, sub) && k < |sub|
    ensures HasChar(s, sub[k])
  {
    var i :| 0 <= i <= |s| && OccursAt(s, sub, i);
    assert s[i + k] == sub[k];
  }

  /** An offer whose status is "Awarded" is awarded even when its flag is `false`. */
  lemma ExampleAwardedUnflagged(o: Offer)
    requires o == map["status" := Str("Awarded"), "awarded" := Bool(false)]
    ensures InferStatus(o) == Awarded
  {
    AwardedFolds();
    StatusPicked(o, "Awarded");
    AwardedEqualityRedundant(StatusText(o));
  }

  lemma AwardedFolds()
    ensures Trim("Awarded") == "Awarded" && Lower("Awarded") == "awarded"
  {
    TrimNoWhite("Awarded");
  }

  /** The first status key holds a string with something besides white space: that string is picked. */
  lemma StatusPicked(o: Offer, s: string)
    requires "status" in o && o["status"] == Str(s) && Trim(s) != []
    ensures FirstOf(o, StatusKeys, AsText) == Some(s)
  {
    assert Field(o, StatusKeys[0]) == Some(Str(s));
  }

  /** An offer whose status is "open" is active even when its flag is `true`. */
  lemma ExampleOpenFlagged(o: Offer)
    requires o == map["status" := Str("open"), "awarded" := Bool(true)]
    ensures InferStatus(o) == Active
  {
    assert Trim("open") == "open" by { TrimNoWhite("open"); }
    assert FirstOf(o, StatusKeys, AsText) == Some("open");
    assert Lower("open") == "open";
    assert OccursAt(StatusText(o), "open", 0);
  }

  /** " adjudicada" neither reads as awarded nor as running. */
  lemma PaddedAdjudicadaSilent(s: string)
    requires s == " adjudicada"
    ensures !AwardText(s) && !ActiveText(s)
  {
    assert !HasChar(s, 'w') && !HasChar(s, 'o') && !HasChar(s, 't') by {
      forall i | 0 <= i < |s| ensures s[i] != 'w' && s[i] != 'o' && s[i] != 't' { }
    }
    if Contains(s, "award") { ContainsHasChar(s, "award", 1); }
    if Contains(s, "open") { ContainsHasChar(s, "open", 0); }
    if Contains(s, "active") { ContainsHasChar(s, "active", 2); }
    if Contains(s, "ongoing") { ContainsHasChar(s, "ongoing", 0); }
  }

  /**
   * The picked text is not trimmed, so " adjudicada" with a leading space is
   * not the exact word "adjudicada": without a flag the offer stays tendered.
   */
  lemma ExamplePaddedAdjudicada(o: Offer)
    requires o == map["status" := Str(" adjudicada")]
    ensures InferStatus(o) == Tendered
  {
    PaddedTrim();
    StatusPicked(o, " adjudicada");
    assert Lower(" adjudicada") == " adjudicada";
    PaddedAdjudicadaSilent(StatusText(o));
    assert !AwardedFlag(o);
  }

  lemma PaddedTrim()
    ensures Trim(" adjudicada") != []
  {
    assert TrimStart(" adjudicada") == "adjudicada";
    TrimNoWhite("adjudicada");
  }
}

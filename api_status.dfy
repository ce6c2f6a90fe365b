/**
 * The API status dot: the health reply's status text, read without regard
 * to case, is shown as OK, degraded, loading or error. The request itself
 * and its 30-second polling are outside the model; the reply is a parameter.
 */
module ApiStatus {
  import opened Wrappers
  import opened Text
  import opened Status

  /** The dot's colour class and its accessible text. */
  datatype Indicator = Indicator(colorClass: string, text: string)

  const OkIndicator := Indicator("bg-emerald-500", "API: OK")
  const DegradedIndicator := Indicator("bg-amber-500", "API: Degradado")
  const LoadingIndicator := Indicator("bg-gray-400", "API: Cargando")
  const ErrorIndicator := Indicator("bg-rose-500", "API: Error")

  /** The state before the first reply. */
  const InitialStatus := "loading"

  /** The state after a request that failed. */
  const FailedStatus := "error"

  predicate OkText(s: string) {
    s == "ok" || s == "healthy" || s == "up"
  }

  predicate DegradedText(s: string) {
    Contains(s, "warn") || Contains(s, "degrad") || s == "yellow"
  }

  /** The `useMemo` classifier on the lower-cased status. */
  function Classify(status: string): Indicator {
    var s := Lower(status);
    if OkText(s) then OkIndicator
    else if DegradedText(s) then DegradedIndicator
    else if s == "loading" then LoadingIndicator
    else ErrorIndicator
  }

  /** `h.status || "ok"`: a reply without a status, or with an empty one, counts as OK. */
  function ReplyStatus(status: Option<string>): (r: string)
    ensures r != []
  {
    match status
    case None => "ok"
    case Some(s) => if s == [] then "ok" else s
  }

  // --------------------------------------------------------------- properties

  /** Each indicator is shown for exactly one kind of text, tried in order; anything else is an error. */
  lemma ClassifyCases(status: string)
    ensures var s := Lower(status);
      (Classify(status) == OkIndicator <==> OkText(s)) &&
      (Classify(status) == DegradedIndicator <==> !OkText(s) && DegradedText(s)) &&
      (Classify(status) == LoadingIndicator <==> !OkText(s) && !DegradedText(s) && s == "loading") &&
      (Classify(status) == ErrorIndicator <==> !OkText(s) && !DegradedText(s) && s != "loading")
  {
  }

  /** Case does not matter: "OK", "Healthy" and "UP" read as OK. */
  lemma OkIgnoresCase(status: string)
    requires status == "OK" || status == "Healthy" || status == "UP"
    ensures Classify(status) == OkIndicator
  {
    assert Lower("OK") == "ok";
    assert Lower("Healthy") == "healthy";
    assert Lower("UP") == "up";
  }

  /** "Degraded" is degraded: the check looks for "degrad" anywhere in the lower-cased text. */
  lemma DegradedExample(status: string)
    requires status == "Degraded"
    ensures Classify(status) == DegradedIndicator
  {
    var s := Lower(status);
    assert s == "degraded";
    assert OccursAt(s, "degrad", 0);
  }

  /**
   * A status whose lower-cased text is not an OK word and has neither a "w" nor
   * a "g" (so neither "warn", "degrad" nor "yellow" occurs) is shown as an
   * error, unless it reads "loading".
   */
  lemma NoLetterNoMatch(status: string)
    requires var s := Lower(status); !HasChar(s, 'w') && !HasChar(s, 'g') && !OkText(s)
    ensures !DegradedText(Lower(status))
    ensures Classify(status) == (if Lower(status) == "loading" then LoadingIndicator else ErrorIndicator)
  {
    var s := Lower(status);
    if Contains(s, "warn") {
      ContainsHasChar(s, "warn", 0);
    }
    if Contains(s, "degrad") {
      ContainsHasChar(s, "degrad", 2);
    }
    assert HasChar("yellow", 'w') by {
      assert "yellow"[5] == 'w';
    }
  }

  /** A failed request and an empty status are errors; the initial state is loading. */
  lemma FixedStates()
    ensures Classify(FailedStatus) == ErrorIndicator
    ensures Classify("") == ErrorIndicator
    ensures Classify(InitialStatus) == LoadingIndicator
  {
    assert Lower(FailedStatus) == "error";
    assert !HasChar("error", 'w') && !HasChar("error", 'g') by {
      forall i | 0 <= i < |"error"| ensures "error"[i] != 'w' && "error"[i] != 'g' { }
    }
    NoLetterNoMatch(FailedStatus);
    assert Lower("") == "";
    NoLetterNoMatch("");
    assert Lower(InitialStatus) == "loading";
    assert !HasChar("loading", 'w') && !HasChar("loading", 'e') by {
      forall i | 0 <= i < |"loading"| ensures "loading"[i] != 'w' && "loading"[i] != 'e' { }
    }
    if Contains("loading", "degrad") {
      ContainsHasChar("loading", "degrad", 1);
    }
    if Contains("loading", "warn") {
      ContainsHasChar("loading", "warn", 0);
    }
  }

  /** A reply with an empty or missing status shows OK. */
  lemma EmptyReplyIsOk(status: Option<string>)
    requires status.None? || status == Some("")
    ensures Classify(ReplyStatus(status)) == OkIndicator
  {
    assert Lower("ok") == "ok";
  }
}

/**
 * The check run on every reply: does it mention, in any letter case, one of
 * a fixed list of keywords about self-harm?
 */
module Warnings {
  import opened GoStrings

  const WarningKeywords: seq<string> := ["suicide", "self-harm", "kill myself", "harm myself", "end my life"]

  /** The lower-cased reply contains one of the keywords. */
  predicate Alarming(response: string)
  {
    exists j :: 0 <= j < |WarningKeywords| && Contains(ToLower(response), WarningKeywords[j])
  }

  /** Scans the keywords in order and stops at the first one found. */
  method CheckForWarnings(response: string) returns (warn: bool)
    ensures warn <==> Alarming(response)
  {
    warn := false;
    var i := 0;
    while i < |WarningKeywords|
      invariant 0 <= i <= |WarningKeywords|
      invariant forall j :: 0 <= j < i ==> !Contains(ToLower(response), WarningKeywords[j])
    {
      if Contains(ToLower(response), WarningKeywords[i]) {
        warn := true;
        break;
      }
      i := i + 1;
    }
  }

  /** The warning fires exactly when some stretch of the reply, lower-cased,
      spells one of the keywords: `Kill Myself` or `SUICIDE` count as well. */
  lemma AlarmingCaseInsensitive(response: string)
    ensures Alarming(response)
        <==> exists j, i :: 0 <= j < |WarningKeywords| && LowersTo(response, WarningKeywords[j], i)
  {
    forall j | 0 <= j < |WarningKeywords| {
      ContainsLower(response, WarningKeywords[j]);
    }
  }
}

/**
 * The placeholder ad service: a frequency cap of one interstitial per three days,
 * kept in one module-level timestamp, and a banner that is always shown. Clock
 * readings are parameters in milliseconds. A request and the close of the ad it
 * opens are two separate events: the cap is decided at the request, and the
 * timestamp is written only when the user closes the ad, at `closedAt`.
 */
module Ads {

  /** `CAP_DURATION`: three days in milliseconds. */
  const CapDuration: int := 1000 * 60 * 60 * 24 * 3

  /**
   * A request at `now` is capped when an ad was closed before (the timestamp is
   * not the initial 0) and less than the cap duration has passed since.
   */
  predicate Capped(last: int, now: int) {
    now - last < CapDuration && last != 0
  }

  /** The outcome of one `showInterstitial` call: whether an ad was shown, and the timestamp after it. */
  datatype Outcome = Outcome(shown: bool, last: int)

  /**
   * A request at `now` whose ad, when it opens, is closed at `closedAt` before any
   * other request: whether it resolved to shown, and the timestamp afterwards.
   */
  function ShowStep(last: int, now: int, closedAt: int): (r: Outcome)
    ensures r.shown <==> last == 0 || now - last >= CapDuration
    ensures r.last == (if r.shown then closedAt else last)
  {
    if Capped(last, now) then Outcome(false, last) else Outcome(true, closedAt)
  }

  /** `shouldShowBanner`. */
  function ShouldShowBanner(): (r: bool)
    ensures r
  {
    true
  }

  /** Three days are 259,200,000 milliseconds. */
  lemma CapIsThreeDays()
    ensures CapDuration == 259_200_000 && CapDuration == 3 * 24 * 60 * 60 * 1000
  {
  }

  /** With the timestamp still at its initial 0, no request is capped, whatever the time. */
  lemma FirstRequestNeverCapped(now: int, closedAt: int)
    ensures !Capped(0, now)
    ensures ShowStep(0, now, closedAt) == Outcome(true, closedAt)
  {
  }

  /** A capped request changes nothing, and a request is capped exactly when the rule says so. */
  lemma CappedChangesNothing(last: int, now: int, closedAt: int)
    ensures Capped(last, now) <==> (last != 0 && now - last < CapDuration)
    ensures Capped(last, now) <==> ShowStep(last, now, closedAt) == Outcome(false, last)
  {
  }

  /**
   * While an opened ad is still on screen the timestamp is not yet written, so a
   * second request made then (a double tap) is decided on the same timestamp and
   * opens a second ad: nothing the first ad did can cap it.
   */
  lemma {:induction false} OpenAdDoesNotCap(last: int, now: int, later: int)
    requires !Capped(last, now) && now <= later
    ensures !Capped(last, later)
  {
  }

  /**
   * After an ad closed at a nonzero time `t`, every request less than three days
   * later is refused and leaves the timestamp at `t`; from three days on the next
   * ad is shown again.
   */
  lemma CappedAfterClose(last: int, now: int, t: int, later: int, closedAt: int)
    requires ShowStep(last, now, t).shown && t != 0
    ensures later - t < CapDuration ==> ShowStep(ShowStep(last, now, t).last, later, closedAt) == Outcome(false, t)
    ensures later - t >= CapDuration ==> ShowStep(ShowStep(last, now, t).last, later, closedAt) == Outcome(true, closedAt)
  {
  }

  /** The in-memory timestamp of the last closed interstitial. */
  class InterstitialService {
    var lastInterstitialTime: int

    constructor()
      ensures lastInterstitialTime == 0
    {
      lastInterstitialTime := 0;
    }

    /**
     * The request at `now`: when capped it resolves to false at once; otherwise the
     * ad opens. The request writes nothing; the timestamp changes only through
     * `CloseAd`, so an ad that is never closed never moves it.
     */
    method ShowInterstitial(now: int) returns (displayed: bool)
      ensures displayed <==> lastInterstitialTime == 0 || now - lastInterstitialTime >= CapDuration
    {
      displayed := !(now - lastInterstitialTime < CapDuration && lastInterstitialTime != 0);
    }

    /** The ad's "Close Ad" button, pressed at `closedAt`: the close time is recorded and the request resolves to true. */
    method CloseAd(closedAt: int) returns (shown: bool)
      modifies this`lastInterstitialTime
      ensures lastInterstitialTime == closedAt && shown
    {
      lastInterstitialTime := closedAt;
      shown := true;
    }
  }
}

/**
 * useOnlineStatus: whether the browser is online, from the navigator's flag,
 * the window's `online`/`offline` events and a periodic HEAD probe, with
 * the `onOnline`/`onOffline` callbacks fired on transitions.
 */
module OnlineStatus {
  /** A call to one of the hook's optional callbacks. */
  datatype Callback = OnOnline | OnOffline

  /** What the HEAD request to the ping URL came to. */
  datatype Probe = Responded | Failed

  /** The status at mount: the navigator's flag, or online without a navigator. */
  function InitialStatus(hasNavigator: bool, navigatorOnLine: bool): (online: bool)
    ensures !online <==> hasNavigator && !navigatorOnLine
  {
    if hasNavigator then navigatorOnLine else true
  }

  /** The probe's verdict: any response, whatever its status, counts as online. */
  function ProbeVerdict(hasNavigator: bool, probe: Probe): (online: bool)
    ensures online <==> !hasNavigator || probe == Responded
  {
    if !hasNavigator then true else probe == Responded
  }

  /** The callbacks a check fires going from `wasOnline` to `online`. */
  function Transition(wasOnline: bool, online: bool): (fired: seq<Callback>)
    ensures |fired| <= 1
    ensures fired == [] <==> wasOnline == online
    ensures fired == [OnOnline] <==> !wasOnline && online
    ensures fired == [OnOffline] <==> wasOnline && !online
  {
    if online && !wasOnline then [OnOnline]
    else if !online && wasOnline then [OnOffline]
    else []
  }

  /** Checking twice in a row with the same verdict fires at most once. */
  lemma RepeatedCheckQuiet(wasOnline: bool, online: bool)
    ensures Transition(online, online) == []
    ensures |Transition(wasOnline, online) + Transition(online, online)| <= 1
  {
  }

  /** Alternating statuses fire alternating callbacks: every transition is reported once. */
  lemma TransitionsAlternate(a: bool, b: bool, c: bool)
    requires a != b && b != c
    ensures Transition(a, b) + Transition(b, c) == (if b then [OnOnline, OnOffline] else [OnOffline, OnOnline])
  {
  }

  class OnlineStatus {
    const hasNavigator: bool
    var isOnline: bool
    var isChecking: bool
    /** The callbacks fired so far, oldest first. */
    var fired: seq<Callback>

    /** The last callback fired agrees with the current status. */
    predicate Consistent()
      reads this
    {
      |fired| > 0 ==> (fired[|fired| - 1] == OnOnline <==> isOnline)
    }

    constructor (hasNavigator: bool, navigatorOnLine: bool)
      ensures this.hasNavigator == hasNavigator
      ensures isOnline == InitialStatus(hasNavigator, navigatorOnLine)
      ensures !isChecking && fired == []
      ensures Consistent()
    {
      this.hasNavigator := hasNavigator;
      isOnline := InitialStatus(hasNavigator, navigatorOnLine);
      isChecking := false;
      fired := [];
    }

    /**
     * `checkOnlineStatus`: without a navigator it answers online and touches
     * nothing; otherwise it raises `isChecking` for the probe and lowers it
     * again however the probe ends.
     */
    method CheckOnlineStatus(probe: Probe) returns (online: bool)
      modifies this`isChecking
      ensures online == ProbeVerdict(hasNavigator, probe)
      ensures isChecking == (if hasNavigator then false else old(isChecking))
    {
      if !hasNavigator {
        return true;
      }
      isChecking := true;
      online := probe == Responded;
      isChecking := false;
    }

    /** `forceCheck` (also run every ping interval): records the verdict and fires on a change. */
    method ForceCheck(probe: Probe)
      modifies this`isOnline, this`isChecking, this`fired
      ensures isOnline == ProbeVerdict(hasNavigator, probe)
      ensures fired == old(fired) + Transition(old(isOnline), isOnline)
      ensures old(Consistent()) ==> Consistent()
      ensures isChecking == (if hasNavigator then false else old(isChecking))
    {
      var online := CheckOnlineStatus(probe);
      var wasOnline := isOnline;
      isOnline := online;
      if online && !wasOnline {
        fired := fired + [OnOnline];
      } else if !online && wasOnline {
        fired := fired + [OnOffline];
      }
    }

    /** The window's `online` event: online, and `onOnline` fires even when already online. */
    method HandleOnline()
      modifies this`isOnline, this`fired
      ensures isOnline && fired == old(fired) + [OnOnline]
      ensures Consistent()
    {
      isOnline := true;
      fired := fired + [OnOnline];
    }

    /** The window's `offline` event: offline, and `onOffline` fires even when already offline. */
    method HandleOffline()
      modifies this`isOnline, this`fired
      ensures !isOnline && fired == old(fired) + [OnOffline]
      ensures Consistent()
    {
      isOnline := false;
      fired := fired + [OnOffline];
    }
  }
}

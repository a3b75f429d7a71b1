/**
 * The startup logic of the desktop agent's entry point: the `--minimized`
 * flag, the short peer id and the "Online" tray title, and the daemon
 * startup task (initialize, then start the daemon, then publish the status).
 *
 * The daemon manager's `initialize`, `start_daemon` and `get_peer_id` are not
 * part of this model: their results are inputs.
 */
module Startup {
  import opened Wrappers

  /** The command-line flag that asks for a start hidden in the tray. */
  const MinimizedFlag: string := "--minimized"

  /** The title the tray's status item is created with. */
  const StartingTitle: string := "Status: Starting..."

  /** What the published status title starts with. */
  const OnlinePrefix: string := "Online: "

  /**
   * Whether the process was started minimized: some argument of the whole
   * argument vector (program name included) is exactly the flag.
   */
  function HasMinimizedFlag(args: seq<string>): (r: bool)
    ensures r <==> exists i :: 0 <= i < |args| && args[i] == MinimizedFlag
  {
    if args == [] then false
    else args[0] == MinimizedFlag || HasMinimizedFlag(args[1..])
  }

  /** Neither the order of the arguments nor their number matter, only their multiset. */
  lemma MinimizedFlagIgnoresOrder(args: seq<string>, args': seq<string>)
    requires multiset(args) == multiset(args')
    ensures HasMinimizedFlag(args) == HasMinimizedFlag(args')
  {
    FlagInMultiset(args);
    FlagInMultiset(args');
  }

  lemma FlagInMultiset(args: seq<string>)
    ensures HasMinimizedFlag(args) <==> MinimizedFlag in multiset(args)
  {
  }

  /** Arguments other than the flag do not change the outcome. */
  lemma MinimizedFlagOfConcat(args: seq<string>, more: seq<string>)
    ensures HasMinimizedFlag(args + more) == (HasMinimizedFlag(args) || HasMinimizedFlag(more))
  {
    var all := args + more;
    if HasMinimizedFlag(args) {
      var i :| 0 <= i < |args| && args[i] == MinimizedFlag;
      assert all[i] == MinimizedFlag;
    }
    if HasMinimizedFlag(more) {
      var i :| 0 <= i < |more| && more[i] == MinimizedFlag;
      assert all[|args| + i] == MinimizedFlag;
    }
    if HasMinimizedFlag(all) {
      var i :| 0 <= i < |all| && all[i] == MinimizedFlag;
      if i < |args| {
        assert args[i] == MinimizedFlag;
      } else {
        assert more[i - |args|] == MinimizedFlag;
      }
    }
  }

  /** Every character is ASCII, so that a length in characters is a length in bytes. */
  predicate IsAscii(s: string) {
    forall i :: 0 <= i < |s| ==> s[i] as int < 128
  }

  /**
   * The display form of a peer id: ids longer than 12 characters keep their
   * first and last six characters around an ellipsis; shorter ones are kept.
   */
  function ShortId(peerId: string): (r: string)
    requires IsAscii(peerId)
    ensures |peerId| <= 12 ==> r == peerId
    ensures |peerId| > 12 ==> |r| == 15 && r[6..9] == "..." &&
                              r[..6] == peerId[..6] && r[9..] == peerId[|peerId| - 6..]
    ensures |r| <= 15 && IsAscii(r)
  {
    if |peerId| > 12 then peerId[..6] + "..." + peerId[|peerId| - 6..] else peerId
  }

  /** Shortening an already short id changes nothing. */
  lemma ShortIdIdempotent(peerId: string)
    requires IsAscii(peerId)
    ensures ShortId(ShortId(peerId)) == ShortId(peerId)
  {
  }

  /** The short id of the id the daemon reports, the empty string when it reports none. */
  function ShortIdOf(peerId: Option<string>): (r: string)
    requires peerId.Some? ==> IsAscii(peerId.value)
    ensures peerId.None? ==> r == ""
    ensures peerId.Some? ==> r == ShortId(peerId.value)
  {
    ShortId(peerId.GetOr(""))
  }

  /** The status title published once the daemon runs. */
  function OnlineTitle(shortId: string): (title: string)
    ensures |title| == |OnlinePrefix| + |shortId|
    ensures title[..|OnlinePrefix|] == OnlinePrefix && title[|OnlinePrefix|..] == shortId
  {
    OnlinePrefix + shortId
  }

  /**
   * The published title always starts with the prefix and holds at most 23
   * characters; with no peer id it is the bare prefix; and it can never be
   * mistaken for the initial title.
   */
  lemma OnlineTitleShape(peerId: Option<string>)
    requires peerId.Some? ==> IsAscii(peerId.value)
    ensures |OnlineTitle(ShortIdOf(peerId))| <= 23
    ensures peerId.None? ==> OnlineTitle(ShortIdOf(peerId)) == OnlinePrefix
    ensures OnlineTitle(ShortIdOf(peerId)) != StartingTitle
  {
    var title := OnlineTitle(ShortIdOf(peerId));
    assert title[0] == 'O' != StartingTitle[0];
  }

  /** The result of a fallible call on the daemon manager. */
  datatype Outcome = Ok | Err(reason: string)

  /** The daemon-manager operations the startup task calls, in call order. */
  datatype DaemonCall = Initialize | StartDaemon | GetPeerId

  /** What the startup task does: the calls it makes and the title it publishes, if any. */
  datatype TaskEffect = TaskEffect(calls: seq<DaemonCall>, published: Option<string>)

  /**
   * The effect of the daemon startup task, given the outcomes of
   * `initialize` and `start_daemon`, the id `get_peer_id` returns and whether
   * the tray is found. `start_daemon` is called only after a successful
   * `initialize`; a title is published only when both succeeded and the tray
   * is there, and it is then the "Online" title of the short peer id.
   */
  function DaemonTaskEffect(init: Outcome, start: Outcome, peerId: Option<string>, trayFound: bool): (e: TaskEffect)
    requires peerId.Some? ==> IsAscii(peerId.value)
    ensures 1 <= |e.calls| <= 3 && e.calls == [Initialize, StartDaemon, GetPeerId][..|e.calls|]
    ensures StartDaemon in e.calls <==> init.Ok?
    ensures GetPeerId in e.calls <==> init.Ok? && start.Ok? && trayFound
    ensures e.published.Some? <==> init.Ok? && start.Ok? && trayFound
    ensures e.published.Some? ==> e.published.value == OnlineTitle(ShortIdOf(peerId))
  {
    if init.Err? then TaskEffect([Initialize], None)
    else if start.Err? then TaskEffect([Initialize, StartDaemon], None)
    else if !trayFound then TaskEffect([Initialize, StartDaemon], None)
    else TaskEffect([Initialize, StartDaemon, GetPeerId], Some(OnlineTitle(ShortIdOf(peerId))))
  }

  /** The status item of the tray menu, whose title the startup task updates. */
  class TrayItem {
    var title: string

    constructor ()
      ensures title == StartingTitle
    {
      title := StartingTitle;
    }

    method SetTitle(t: string)
      modifies this
      ensures title == t
    {
      title := t;
    }
  }

  /**
   * The daemon startup task, step by step. `tray` is the tray status item,
   * or null when the tray is not found. Returns the daemon-manager calls
   * made, in order.
   */
  method RunDaemonTask(init: Outcome, start: Outcome, peerId: Option<string>, tray: TrayItem?)
    returns (calls: seq<DaemonCall>)
    requires peerId.Some? ==> IsAscii(peerId.value)
    modifies tray
    ensures calls == DaemonTaskEffect(init, start, peerId, tray != null).calls
    ensures tray != null ==>
              tray.title == DaemonTaskEffect(init, start, peerId, true).published.GetOr(old(tray.title))
  {
    calls := [Initialize];
    if init.Err? {
      return;
    }
    calls := calls + [StartDaemon];
    if start.Err? {
      return;
    }
    if tray != null {
      calls := calls + [GetPeerId];
      var shortId := ShortIdOf(peerId);
      tray.SetTitle(OnlineTitle(shortId));
    }
  }

  /**
   * Startup as the tray sees it: the status item is created with the
   * starting title and the daemon task then runs. The title becomes the
   * "Online" title exactly when `initialize` and `start_daemon` both
   * succeeded; on either failure it stays the starting title.
   */
  method DaemonStartup(init: Outcome, start: Outcome, peerId: Option<string>)
    returns (status: string, calls: seq<DaemonCall>)
    requires peerId.Some? ==> IsAscii(peerId.value)
    ensures init.Ok? && start.Ok? ==> status == OnlineTitle(ShortIdOf(peerId))
    ensures !(init.Ok? && start.Ok?) ==> status == StartingTitle
    ensures StartDaemon in calls ==> init.Ok?
    ensures |calls| >= 1 && calls[0] == Initialize
  {
    var item := new TrayItem();
    calls := RunDaemonTask(init, start, peerId, item);
    status := item.title;
  }
}

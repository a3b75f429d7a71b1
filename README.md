# Desktop agent startup and milestone notifications, in Dafny

This project models the two pieces of logic in the SPK Network desktop agent
(a Tauri tray application that supervises a local Kubo/IPFS daemon) whose
behaviour can be stated:

- **Milestone notifications** (`notifications.dfy`, module `Notifications`):
  the fixed list of cumulative-earnings milestones in HBD, the detector
  `check_milestone_crossed`, which reports the first milestone crossed when the
  total moves from an old to a new value, and the amount the milestone
  notification displays, `max(milestone, total_earned)`. The detector is a
  find-first over a constant list and is modelled as a recursive function
  (`FirstCrossed`) applied to that list. Amounts are exact reals.
- **Startup** (`startup.dfy`, module `Startup`): the `--minimized` flag test,
  the short peer id (`first6...last6` for ids longer than 12 characters), the
  `Online: <short id>` tray title, and the daemon startup task: `initialize`,
  then `start_daemon` only if that succeeded, then, if the tray is found,
  `get_peer_id` and the new status title. The task is a method
  (`RunDaemonTask`) that updates a tray status item (class `TrayItem`, created
  with the title `Status: Starting...`), proved against the function
  `DaemonTaskEffect`. The outcomes of `initialize` and `start_daemon`, the id
  returned by `get_peer_id` and whether the tray is found are inputs.

`wrappers.dfy` holds the `Option` datatype.

## Model

| member | source | states |
|---|---|---|
| `Notifications.ThresholdsAscending` | desktop-agent/src-tauri/src/notifications.rs:1 | the milestone list is non-empty and strictly increasing, so it is scanned in ascending order |
| `Notifications.FirstCrossed` | desktop-agent/src-tauri/src/notifications.rs:20-25 | a found value is an element the move crosses (old < t <= new) and no earlier element is crossed; `None` exactly when no element is crossed |
| `Notifications.FirstCrossedIsLeast` | desktop-agent/src-tauri/src/notifications.rs:20-22 | over an ascending list, the first crossed element is the least crossed element |
| `Notifications.CheckMilestoneCrossed` | desktop-agent/src-tauri/src/notifications.rs:19-26 | a reported milestone is one of the thresholds, lies in (old, new], and is the smallest threshold there; `None` iff no threshold lies in (old, new] |
| `Notifications.NoMilestoneWithoutIncrease` | desktop-agent/src-tauri/src/notifications.rs:21 | an unchanged or decreasing total reports no milestone |
| `Notifications.MilestoneExamples` | desktop-agent/src-tauri/src/notifications.rs:19-26 | (0.005, 0.02) gives 0.01; (0.5, 50) gives 1 (the lowest, not the largest); (0.005, 1000) gives 0.01; (99, 100) gives 100; (100, 100) gives none |
| `Notifications.SplitUpdate` | desktop-agent/src-tauri/src/notifications.rs:19-26 | the detector is stateless: one update from old to new reports the first half's milestone if a split update has one there, else the second half's |
| `Notifications.MilestoneAmountShown` | desktop-agent/src-tauri/src/notifications.rs:8 | the displayed amount is at least the milestone and at least the total, and equals one of them |
| `Notifications.MilestoneShownIsNewTotal` | desktop-agent/src-tauri/src/notifications.rs:8 | when a milestone is reported for a move to a new total, the amount displayed for that total is the total itself |
| `Startup.HasMinimizedFlag` | desktop-agent/src-tauri/src/main.rs:25 | true iff some argument is exactly `--minimized` |
| `Startup.MinimizedFlagIgnoresOrder` | desktop-agent/src-tauri/src/main.rs:25 | argument vectors with the same multiset of arguments agree on the flag |
| `Startup.MinimizedFlagOfConcat` | desktop-agent/src-tauri/src/main.rs:25 | the flag is found in a concatenation iff it is found in one of the parts |
| `Startup.ShortId` | desktop-agent/src-tauri/src/main.rs:113-117 | an id of at most 12 characters is unchanged; a longer one becomes its first 6 characters, `...` and its last 6 characters, 15 in all; never more than 15 |
| `Startup.ShortIdIdempotent` | desktop-agent/src-tauri/src/main.rs:113-117 | shortening a short id gives it back |
| `Startup.ShortIdOf` | desktop-agent/src-tauri/src/main.rs:112-117 | an absent peer id gives the empty short id; a present one gives its short id |
| `Startup.OnlineTitle` | desktop-agent/src-tauri/src/main.rs:118 | the title is `Online: ` followed by exactly the short id |
| `Startup.OnlineTitleShape` | desktop-agent/src-tauri/src/main.rs:112-118 | the published title has at most 23 characters, is exactly `Online: ` when there is no peer id, and differs from the initial `Status: Starting...` |
| `Startup.DaemonTaskEffect` | desktop-agent/src-tauri/src/main.rs:92-119 | calls are a prefix of initialize, start_daemon, get_peer_id; start_daemon is called iff initialize succeeded; get_peer_id is called and a title published iff both succeeded and the tray is found; that title is `Online: ` and the short peer id |
| `Startup.TrayItem.constructor` | desktop-agent/src-tauri/src/main.rs:29 | the status item starts with the title `Status: Starting...` |
| `Startup.TrayItem.SetTitle` | desktop-agent/src-tauri/src/main.rs:118 | the item's title becomes the given title |
| `Startup.RunDaemonTask` | desktop-agent/src-tauri/src/main.rs:92-119 | the calls made and the tray title afterwards are those of `DaemonTaskEffect`; without a published title the tray keeps its old title |
| `Startup.DaemonStartup` | desktop-agent/src-tauri/src/main.rs:92-119 | with a fresh status item, the title ends as the `Online` title iff initialize and start_daemon both succeed, and stays `Status: Starting...` on either failure; start_daemon is never called after a failed initialize |

## Left out

- Amounts are exact reals: IEEE-754 rounding of 0.01 and 0.1 and NaN (for which `f64::max` and the comparisons behave differently) are not modelled.
- Peer ids are sequences of ASCII characters (`IsAscii` on `ShortId` and its callers): Rust measures and slices the id in bytes and panics when a slice boundary falls inside a multi-byte character; for ASCII ids characters and bytes coincide.
- `HasMinimizedFlag` takes the whole argument vector, program name included, as `std::env::args()` yields it; the panic of `std::env::args()` on arguments that are not valid Unicode is not modelled, nor is the hiding of the window that the flag triggers (desktop-agent/src-tauri/src/main.rs:73-78), which is windowing.
- The task that starts the API server (desktop-agent/src-tauri/src/main.rs:82-87) only calls an unseen function and logs its error; it, the concurrency between the two spawned tasks, and the tokio read/write lock around the daemon manager are not modelled. The daemon task is modelled as a sequential function of the collaborators' outcomes.
- The daemon manager (`kubo::KuboManager`: `initialize`, `start_daemon`, `get_peer_id`), the API server and auto-start registration are not part of this model; their results are inputs.
- A failing `set_title` on the tray item is ignored by the source (`let _ =`); the model treats the update as taking effect.
- Logging, timing (`Instant`, `elapsed`) and the decimal formatting of the notification messages, including `send_challenge_notification` and `send_daily_summary_notification`, which only log.
- Tray menu construction, tray events, window show/hide/focus, close interception, `std::process::exit` and the Tauri builder (desktop-agent/src-tauri/src/main.rs:27-63, 124-131) are user-interface glue.

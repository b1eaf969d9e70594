# Geph Android client: status polling and daemon acquisition, in Dafny

This project models two pieces of logic in the Geph Android client and proves
properties of them.

**The status screen** (`ColumnedStatusFragment`). Each call to `invalidate`
submits one summary fetch. The summary handler does the following:

- it tells the parent fragment the status;
- it shows the received-bytes delta as a speed;
- it moves the rx and tx baselines on;
- when the status is "connected" (any case), it submits a NetInfo fetch;
- it also submits an AccountInfo fetch when the last balance refresh is more
  than ten seconds old.

The NetInfo callback shows the exit address and renders the entry address as
a connection indicator. The AccountInfo callback shows the balance and records
the time captured when the fetch was submitted.

In the model:

- `StatusFragment` is a class with the three fields the source updates
  (`lastBytesRx`, `lastBytesTx`, `balanceUpdated`).
- It also keeps the list of requests it handed to the dispatcher and the list
  of outputs it produced.
- The formatters keep the source's `while` loops. Each one is proved equal to
  a function (`SpeedDisplay`, `BalanceDisplay`), and lemmas give those
  functions a reading that does not depend on the loop.

**Daemon acquisition** (`ProxbinderFactory.getProxbinder`). The factory:

- starts `<nativeLibraryDir>/libgeph.so proxbinder`;
- reads the child's output lines up to the first non-empty one;
- binds the RPC service to `"http://" + address`;
- numbers the handle with a static counter that only a successful launch
  increments.

Starting the process is a parameter of the model: a function from the command
line to `LaunchFailed` or `Started(lines)`.

`JavaLang` models the Java semantics the code relies on:

- `long` and `int` wrap-around;
- integer division that truncates toward zero;
- `Long.toString`;
- `Integer.parseInt`;
- `equalsIgnoreCase`.

The formatters compute in `double`, and the model uses integer arithmetic
instead. This loses nothing here, for three reasons:

- the values are `int`s, or `long / 1024`, which is at most 2^53 in magnitude,
  so they are exact in a `double`;
- dividing by 1024 is exact in binary floating point;
- `x >= 1024` gives the same answer for a real `x` and for its floor, and the
  final `(long)` cast truncates.

So the source's repeated real division, followed by a cast, equals repeated
integer division.

The model keeps these behaviours of the code, which a reader might expect to
be otherwise:

- Triggers are not coalesced. Every `invalidate` submits a fetch.
- A decreased byte counter gives a negative delta. It is not clamped to zero.
- The first summary is compared against the initial baseline 0. No cycle is
  skipped as "baseline only".
- The balance throttle is the strict `mBalanceUpdated + 10000 < now`.
- An output with no non-empty line gives the address `""`. Zero lines also
  give `""`. Neither is a failure.

The model also records two exceptions the code throws:

- `formatBalance` throws `ArrayIndexOutOfBoundsException` for any balance from
  1073741824 (1024^3) up to the largest `int`, because the unit index reaches 3
  (`BalanceDisplayOfInt`).
- `formatSpeed` throws for a delta of 1024^4 bytes or more
  (`SpeedDisplayThrows`). The summary handler's `catch` swallows that one.

The instance counter is a 32-bit `AtomicInteger`. Ids strictly increase over
the first 2^31 - 1 launches, and after that they wrap (`CounterWraps`).

## Model

| member | source | states |
|---|---|---|
| `JavaLang.WrapLong` | app/src/main/java/io/geph/android/ui/ColumnedStatusFragment.java:53 | Java `long` arithmetic: the result equals the mathematical value when it fits, and is congruent to it modulo 2^64 otherwise |
| `JavaLang.WrapInt` | app/src/main/java/io/geph/android/proxbinder/ProxbinderFactory.java:42 | Java `int` arithmetic used by `incrementAndGet`: identity in range, congruent modulo 2^32 otherwise |
| `JavaLang.TruncDiv` | app/src/main/java/io/geph/android/ui/ColumnedStatusFragment.java:220 | `bytes / BYTE_BASE` truncates toward zero: the quotient brackets the dividend from below for non-negative input and from above for negative input |
| `JavaLang.NatToString` | app/src/main/java/io/geph/android/ui/ColumnedStatusFragment.java:176 | the decimal text of a number is non-empty, all digits, with no leading zero |
| `JavaLang.LongToString` | app/src/main/java/io/geph/android/ui/ColumnedStatusFragment.java:176 | the text concatenated for a `long` starts with '-' exactly when the value is negative |
| `JavaLang.ParseInt` | app/src/main/java/io/geph/android/ui/ColumnedStatusFragment.java:164-168 | `Integer.parseInt` succeeds iff the text is an optional sign followed by one or more digits whose signed value lies in the 32-bit `int` range, and then returns that signed value |
| `JavaLang.ParseIntExamples` | app/src/main/java/io/geph/android/ui/ColumnedStatusFragment.java:164-168 | "+007" parses to 7 and "-0" to 0; "1x", "-" and "" are rejected |
| `JavaLang.DigitsValueOfNatToString` | app/src/main/java/io/geph/android/ui/ColumnedStatusFragment.java:176 | reading back the digits written for a number gives that number |
| `JavaLang.ParseIntOfLongToString` | app/src/main/java/io/geph/android/ui/ColumnedStatusFragment.java:165 | every `int` written in decimal parses back to itself, so no such balance is "Invalid Balance" |
| `ColumnedStatusFragment.Scale` | app/src/main/java/io/geph/android/ui/ColumnedStatusFragment.java:170-175 | the scaling loop always ends with a value below 1024 |
| `ColumnedStatusFragment.ScaleIndex` | app/src/main/java/io/geph/android/ui/ColumnedStatusFragment.java:172-175 | the loop divides at least k times (k >= 1) iff the input is at least 1024^k |
| `ColumnedStatusFragment.ScaleBounds` | app/src/main/java/io/geph/android/ui/ColumnedStatusFragment.java:172-175 | value * 1024^steps <= input < (value + 1) * 1024^steps |
| `ColumnedStatusFragment.ScaleValue` | app/src/main/java/io/geph/android/ui/ColumnedStatusFragment.java:170-176 | the number shown is the input divided by 1024^steps, truncated |
| `ColumnedStatusFragment.UnitizedAt` | app/src/main/java/io/geph/android/ui/ColumnedStatusFragment.java:170-176 | for 1024^p <= q < 1024^(p+1) (p = 0 for anything below 1024, negatives included) the text is q / 1024^p followed by unit p |
| `ColumnedStatusFragment.UnitizedThrows` | app/src/main/java/io/geph/android/ui/ColumnedStatusFragment.java:176 | the unit lookup throws iff the value reaches 1024^(number of units), with the index reached |
| `ColumnedStatusFragment.SpeedDisplayThrows` | app/src/main/java/io/geph/android/ui/ColumnedStatusFragment.java:219-228 | `formatSpeed` throws iff the delta is at least 1024^4 bytes |
| `ColumnedStatusFragment.SpeedDisplayUnit` | app/src/main/java/io/geph/android/ui/ColumnedStatusFragment.java:219-228 | the speed shown is (bytes / 1024) / 1024^p in KB/s, MB/s or GB/s for the p that brackets bytes / 1024 |
| `ColumnedStatusFragment.SpeedDisplayNegative` | app/src/main/java/io/geph/android/ui/ColumnedStatusFragment.java:53 | a negative delta is shown unclamped as its truncated KB value in KB/s, with a minus sign from -1024 down |
| `ColumnedStatusFragment.ParsedBalance` | app/src/main/java/io/geph/android/ui/ColumnedStatusFragment.java:164-168 | a `null` balance is rejected like malformed text; any other balance is parsed by `Integer.parseInt` |
| `ColumnedStatusFragment.BalanceDisplayCases` | app/src/main/java/io/geph/android/ui/ColumnedStatusFragment.java:162-177 | a `null` or unparsable balance gives "Invalid Balance"; a parsed balance below 1024 (negatives included) gives `b + " MB"`; a parsed balance throws iff it is at least 1024^3 |
| `ColumnedStatusFragment.BalanceDisplayUnit` | app/src/main/java/io/geph/android/ui/ColumnedStatusFragment.java:170-176 | the balance shown is b / 1024^p in MB, GB or TB for the p that brackets b |
| `ColumnedStatusFragment.BalanceDisplayOfInt` | app/src/main/java/io/geph/android/ui/ColumnedStatusFragment.java:162-177 | for any `int` n written in decimal: below 1024 it shows `n + " MB"`; from 1073741824 on it throws index 3 |
| `ColumnedStatusFragment.FormatSpeed` | app/src/main/java/io/geph/android/ui/ColumnedStatusFragment.java:219-228 | the source's loop computes exactly `SpeedDisplay(bytes)` |
| `ColumnedStatusFragment.FormatBalance` | app/src/main/java/io/geph/android/ui/ColumnedStatusFragment.java:162-177 | the `parseInt` guard plus the loop compute exactly `BalanceDisplay(balance)` |
| `ColumnedStatusFragment.RenderConnStatus` | app/src/main/java/io/geph/android/ui/ColumnedStatusFragment.java:188-211 | exact-match "connected"/"connecting" give Connecting in black; "backup" gives Backup in red; any other string gives Normal in green with `" (" + first 6 chars + ")"`; it throws iff such a string is shorter than 6 |
| `ColumnedStatusFragment.EntryStatus` | app/src/main/java/io/geph/android/ui/ColumnedStatusFragment.java:71-75 | an empty entry is rendered as "backup" and any other entry as itself |
| `ColumnedStatusFragment.SecondaryRequestsGated` | app/src/main/java/io/geph/android/ui/ColumnedStatusFragment.java:62-95 | follow-up fetches exist iff the status equals "connected" ignoring case; the first is the one NetInfo fetch; an AccountInfo fetch exists iff the throttle allows it, and it carries the `now` of that cycle |
| `ColumnedStatusFragment.BalanceDueMeaning` | app/src/main/java/io/geph/android/ui/ColumnedStatusFragment.java:80-81 | the throttle holds iff more than 10000 ms have passed since the last refresh (strict); from the initial 0, any `now` past 10000 fetches |
| `ColumnedStatusFragment.StatusFragment.constructor` | app/src/main/java/io/geph/android/ui/ColumnedStatusFragment.java:41-43 | both baselines and the refresh time start at 0; nothing submitted or shown |
| `ColumnedStatusFragment.StatusFragment.CreateView` | app/src/main/java/io/geph/android/ui/ColumnedStatusFragment.java:132 | the view starts by showing the Connecting indicator |
| `ColumnedStatusFragment.StatusFragment.Invalidate` | app/src/main/java/io/geph/android/ui/ColumnedStatusFragment.java:139-151 | every call appends one summary fetch with a 200 ms timeout; there is no coalescing |
| `ColumnedStatusFragment.StatusFragment.OnSummary` | app/src/main/java/io/geph/android/ui/ColumnedStatusFragment.java:45-105 | null changes nothing; otherwise the parent is notified; if `formatSpeed` throws nothing else changes; else the transfer shows the speed of `rx - lastBytesRx`, both baselines take the new counters, the refresh time is untouched, and exactly the gated follow-up fetches are appended |
| `ColumnedStatusFragment.StatusFragment.OnNetInfo` | app/src/main/java/io/geph/android/ui/ColumnedStatusFragment.java:66-77 | for a submitted NetInfo fetch: null does nothing; otherwise the exit address is shown, then the rendered entry (empty -> "backup") is shown, or its exception escapes after the exit address |
| `ColumnedStatusFragment.StatusFragment.OnAccountInfo` | app/src/main/java/io/geph/android/ui/ColumnedStatusFragment.java:85-93 | for an AccountInfo fetch submitted at `capturedNow`: only a non-null result whose balance formats shows it and sets the refresh time to that `capturedNow`; a formatter exception escapes with nothing changed |
| `ColumnedStatusFragment.BalanceThrottleAcrossCycles` | app/src/main/java/io/geph/android/ui/ColumnedStatusFragment.java:80-91 | on a fresh screen with "connected" summaries at t, t + 5 s and t + 11 s, and the first balance arriving in between, the t + 5 s cycle submits no AccountInfo fetch and the t + 11 s cycle does |
| `ProxbinderFactory.DaemonCommand` | app/src/main/java/io/geph/android/proxbinder/ProxbinderFactory.java:21-23 | the command is exactly `[nativeLibraryDir + "/libgeph.so", "proxbinder"]` |
| `ProxbinderFactory.Discover` | app/src/main/java/io/geph/android/proxbinder/ProxbinderFactory.java:32-37 | the address is the first non-empty line, every line before it is empty, and no line after it is consumed; with no non-empty line every line is consumed and the address is "" |
| `ProxbinderFactory.DiscoverAfterBlanks` | app/src/main/java/io/geph/android/proxbinder/ProxbinderFactory.java:34-37 | k empty lines and then an address are read as that address after k + 1 lines, whatever follows |
| `ProxbinderFactory.ReadEndpoint` | app/src/main/java/io/geph/android/proxbinder/ProxbinderFactory.java:32-38 | the scanner loop computes exactly `Discover(lines)` |
| `ProxbinderFactory.Factory.constructor` | app/src/main/java/io/geph/android/proxbinder/ProxbinderFactory.java:18 | the counter starts at 0 with no id issued |
| `ProxbinderFactory.Factory.GetProxbinder` | app/src/main/java/io/geph/android/proxbinder/ProxbinderFactory.java:20-43 | a launch failure returns null and leaves the counter alone; otherwise the handle gets the incremented counter, the daemon command and the URL `"http://" + Discover(output)` |
| `ProxbinderFactory.IssuedIdsIncrease` | app/src/main/java/io/geph/android/proxbinder/ProxbinderFactory.java:42 | the first 2^31 - 1 successful launches get ids 1, 2, 3, ..., positive and strictly increasing |
| `ProxbinderFactory.CounterWraps` | app/src/main/java/io/geph/android/proxbinder/ProxbinderFactory.java:42 | the next launch after id 2^31 - 1 gets -2^31 |

## Left out

- `GephServiceHelper.callAsync`, its timeouts and `Handler.post`: they are concurrency and code that is not part of this model. A submission is a `Request` appended to `requests`. A completion is a call to `OnNetInfo` or `OnAccountInfo`, with `None` for null. Delivery order, the timeouts and thread hand-off are not modelled.
- What the dispatcher does with an exception that escapes a callback is not part of this model. `OnNetInfo` and `OnAccountInfo` return that exception as `escaped`.
- `TextView.setText`, `setTextColor`, `getString`, colour resources and `notifyStatus`: they are UI. Each becomes an `Output` token. Captions are `StatusLabel` values, because the resource texts are not part of this model.
- `Log.d` and `Log.e`: logging only.
- `reset` and the upload branch of the summary handler: both have empty bodies.
- `AccountUtils`: thin getters over Android preferences, which no modelled code calls.
- FormatSpeed: the `duration` parameter is fixed at 1, its value at the only call. Dividing by another duration would be inexact floating point.
- ParseInt: only ASCII digits are modelled. `Character.digit` also accepts other Unicode decimal digits.
- `equalsIgnoreCase` is modelled with ASCII case folding only.
- RenderConnStatus: entry addresses are taken to hold only characters of the Basic Multilingual Plane. Java's `length()` and `substring(0, 6)` count UTF-16 code units, and the model counts characters. The two agree on such text. A character outside that plane counts twice in Java, and a Dafny string cannot hold the lone surrogate `substring` may then cut off.
- OnNetInfo and OnAccountInfo: each answers a request this screen submitted. Whether a request is answered at most once is not tracked.
- The null-pointer cases are not modelled: a summary with a null status and a NetInfo with a null field. A null balance is modelled: `Integer.parseInt` rejects it, so it shows "Invalid Balance".
- `Summary.STATUS_CONNECTED` is taken to be "connected". The `Summary` class is not part of this model.
- `ProcessBuilder.start` is a function parameter of `GetProxbinder`, from the command line to a `Launch` outcome. The OS process, its lifetime and the unread rest of its output are not modelled.
- `Scanner` line splitting and `Scanner.close` are not modelled. The output is given already split into lines.
- `GephServiceFactory.getService`: the handle records only the URL that the service is bound to.
- `AtomicInteger` is modelled as a plain counter field. Its thread safety is not modelled.

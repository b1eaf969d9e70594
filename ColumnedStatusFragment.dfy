/** The two-column connection status screen: the handler for the result of a
    summary fetch, the NetInfo and AccountInfo follow-up fetches it issues,
    and the formatters that turn raw counters, balances and entry addresses
    into display text. */
module ColumnedStatusFragment {
  import opened JavaLang

  const ByteBase: int := 1024
  const NetSpeedUnits: seq<string> := ["KB/s", "MB/s", "GB/s"]
  const BalanceUnits: seq<string> := ["MB", "GB", "TB"]
  /** Minimum time, in milliseconds, between two balance refreshes. */
  const BalanceRefreshEpoch: int := 10 * 1000
  /** The status a summary reports once the tunnel is up. */
  const StatusConnected: string := "connected"
  const InvalidBalance: string := "Invalid Balance"

  // ---------------------------------------------------------------------
  // Unit scaling shared by formatSpeed and formatBalance
  // ---------------------------------------------------------------------

  function Pow1024(k: nat): (r: nat)
    ensures r >= 1
    ensures k >= 1 ==> r >= ByteBase
  {
    if k == 0 then 1 else ByteBase * Pow1024(k - 1)
  }

  /** What the `while (adjusted >= BYTE_BASE)` loop leaves, starting from `q`:
      the value once it is below the base, and how many times it was divided. */
  function Scale(q: int): (r: (int, nat))
    ensures r.0 < ByteBase
    decreases if q < 0 then 0 else q
  {
    if q < ByteBase then (q, 0)
    else
      var t := Scale(q / ByteBase);
      (t.0, t.1 + 1)
  }

  /** The scaled value followed by the unit the division count selects; a
      count past the last unit is the array index the source then throws on. */
  function Unitized(q: int, units: seq<string>): Outcome<string>
  {
    var t := Scale(q);
    if t.1 < |units| then Returned(LongToString(t.0) + " " + units[t.1])
    else Threw(ArrayIndexOutOfBounds(t.1))
  }

  /** `formatSpeed(bytes, 1)`: the byte count in KB (Java `long` division,
      truncating toward zero), scaled to KB/s, MB/s or GB/s. */
  function SpeedDisplay(bytes: int): Outcome<string> {
    Unitized(TruncDiv(bytes, ByteBase), NetSpeedUnits)
  }

  /** `Integer.parseInt` on a balance that may be `null`: `null` is a
      `NumberFormatException` like any malformed text. */
  function ParsedBalance(balance: Option<string>): (r: Option<int>)
    ensures balance.None? ==> r.None?
    ensures balance.Some? ==> r == ParseInt(balance.value)
  {
    match balance
    case None => None
    case Some(text) => ParseInt(text)
  }

  /** `formatBalance(balance)`: "Invalid Balance" when the string is `null`
      or not an `int`, otherwise the amount in MB scaled to MB, GB or TB. */
  function BalanceDisplay(balance: Option<string>): Outcome<string> {
    match ParsedBalance(balance)
    case None => Returned(InvalidBalance)
    case Some(b) => Unitized(b, BalanceUnits)
  }

  lemma MulMono(d: int, u: int, v: int)
    requires d >= 0 && u <= v
    ensures d * u <= d * v
  {
    assert d * v - d * u == d * (v - u);
  }

  /** `n / d == y` when `n` lies between `d * y` and the next multiple of `d`. */
  lemma DivFromBounds(n: int, d: int, y: int)
    requires d > 0 && d * y <= n < d * y + d
    ensures n / d == y
  {
    var z, r := n / d, n % d;
    assert n == d * z + r && 0 <= r < d;
    assert d * z < d * (y + 1);
    if y + 1 <= z { MulMono(d, y + 1, z); }
    assert d * y < d * (z + 1);
    if z + 1 <= y { MulMono(d, z + 1, y); }
  }

  /** The loop divides exactly `k` or more times iff `q` is at least 1024^k. */
  lemma {:induction false} ScaleIndex(q: int, k: nat)
    requires k >= 1
    ensures Scale(q).1 >= k <==> q >= Pow1024(k)
    decreases k
  {
    if q >= ByteBase && k > 1 {
      ScaleIndex(q / ByteBase, k - 1);
      assert q / ByteBase >= Pow1024(k - 1) <==> q >= ByteBase * Pow1024(k - 1);
    }
  }

  /** The value the loop leaves, times 1024 per step taken, brackets the input. */
  lemma {:induction false} ScaleBounds(q: int)
    requires q >= 0
    ensures var t := Scale(q);
      t.0 * Pow1024(t.1) <= q < t.0 * Pow1024(t.1) + Pow1024(t.1)
    decreases q
  {
    if q >= ByteBase {
      var t := Scale(q / ByteBase);
      ScaleBounds(q / ByteBase);
      assert t.0 * Pow1024(t.1 + 1) == ByteBase * (t.0 * Pow1024(t.1));
    }
  }

  /** The value the loop leaves is the input divided by 1024 once per step,
      truncated. */
  lemma ScaleValue(q: int)
    requires q >= 0
    ensures Scale(q).0 == q / Pow1024(Scale(q).1)
  {
    ScaleBounds(q);
    DivFromBounds(q, Pow1024(Scale(q).1), Scale(q).0);
  }

  /** Reference reading of the formatters: the unit index is the `p` with
      1024^p <= q < 1024^(p+1) (or 0 for anything below 1024, negatives
      included) and the number shown is the truncated quotient q / 1024^p. */
  lemma UnitizedAt(q: int, units: seq<string>, p: nat)
    requires p < |units|
    requires p == 0 || Pow1024(p) <= q
    requires q < Pow1024(p + 1)
    ensures Unitized(q, units) == Returned(LongToString(q / Pow1024(p)) + " " + units[p])
  {
    var t := Scale(q);
    if p == 0 {
      assert Pow1024(1) == ByteBase;
      assert t == (q, 0);
      assert q / Pow1024(0) == q;
    } else {
      ScaleIndex(q, p);
      ScaleIndex(q, p + 1);
      assert t.1 == p;
      ScaleValue(q);
      assert t.0 == q / Pow1024(p);
    }
    assert Unitized(q, units) == Returned(LongToString(t.0) + " " + units[t.1]);
  }

  /** The formatters throw exactly when the value reaches 1024^|units|. */
  lemma UnitizedThrows(q: int, units: seq<string>)
    requires |units| >= 1
    ensures Unitized(q, units).Threw? <==> q >= Pow1024(|units|)
    ensures Unitized(q, units).Threw? ==> Unitized(q, units).exception == ArrayIndexOutOfBounds(Scale(q).1)
  {
    ScaleIndex(q, |units|);
  }

  /** `formatSpeed` throws for a delta of 1024^4 bytes or more, and only then. */
  lemma SpeedDisplayThrows(bytes: int)
    ensures SpeedDisplay(bytes).Threw? <==> bytes >= Pow1024(4)
  {
    UnitizedThrows(TruncDiv(bytes, ByteBase), NetSpeedUnits);
    assert Pow1024(4) == ByteBase * Pow1024(3);
  }

  /** Unit and value `formatSpeed` shows for a delta in range. */
  lemma SpeedDisplayUnit(bytes: int, p: nat)
    requires p < 3
    requires p == 0 || Pow1024(p) <= TruncDiv(bytes, ByteBase)
    requires TruncDiv(bytes, ByteBase) < Pow1024(p + 1)
    ensures SpeedDisplay(bytes)
         == Returned(LongToString(TruncDiv(bytes, ByteBase) / Pow1024(p)) + " " + NetSpeedUnits[p])
  {
    UnitizedAt(TruncDiv(bytes, ByteBase), NetSpeedUnits, p);
  }

  /** A negative delta (a counter that went down) is shown as it is, in KB/s,
      never clamped to zero. */
  lemma SpeedDisplayNegative(bytes: int)
    requires bytes < 0
    ensures SpeedDisplay(bytes) == Returned(LongToString(TruncDiv(bytes, ByteBase)) + " KB/s")
    ensures bytes <= -ByteBase ==> SpeedDisplay(bytes).value[0] == '-'
  {
    UnitizedAt(TruncDiv(bytes, ByteBase), NetSpeedUnits, 0);
    var v := LongToString(TruncDiv(bytes, ByteBase));
    assert v + " " + "KB/s" == v + " KB/s";
  }

  /** The three outcomes of `formatBalance`. */
  lemma BalanceDisplayCases(balance: Option<string>)
    ensures ParsedBalance(balance).None? ==> BalanceDisplay(balance) == Returned(InvalidBalance)
    ensures ParsedBalance(balance).Some? && ParsedBalance(balance).value < ByteBase ==>
              BalanceDisplay(balance) == Returned(LongToString(ParsedBalance(balance).value) + " MB")
    ensures ParsedBalance(balance).Some? ==>
              (BalanceDisplay(balance).Threw? <==> ParsedBalance(balance).value >= Pow1024(3))
  {
    match ParsedBalance(balance)
    case None =>
    case Some(b) =>
      UnitizedThrows(b, BalanceUnits);
      if b < ByteBase {
        UnitizedAt(b, BalanceUnits, 0);
        assert LongToString(b) + " " + "MB" == LongToString(b) + " MB";
      }
  }

  /** Unit and value `formatBalance` shows for a parsed balance. */
  lemma BalanceDisplayUnit(balance: Option<string>, p: nat)
    requires ParsedBalance(balance).Some?
    requires p < 3
    requires p == 0 || Pow1024(p) <= ParsedBalance(balance).value
    requires ParsedBalance(balance).value < Pow1024(p + 1)
    ensures BalanceDisplay(balance)
         == Returned(LongToString(ParsedBalance(balance).value / Pow1024(p)) + " " + BalanceUnits[p])
  {
    UnitizedAt(ParsedBalance(balance).value, BalanceUnits, p);
  }

  /** A balance written as Java writes an `int` is shown in MB below 1024,
      and makes `formatBalance` throw from 1024^3 = 1073741824 up to the
      largest `int`: the unit index reaches 3. */
  lemma BalanceDisplayOfInt(n: int)
    requires MinInt <= n <= MaxInt
    ensures n < ByteBase ==> BalanceDisplay(Some(LongToString(n))) == Returned(LongToString(n) + " MB")
    ensures BalanceDisplay(Some(LongToString(n))).Threw? <==> n >= Pow1024(3)
    ensures n >= Pow1024(3) ==> BalanceDisplay(Some(LongToString(n))) == Threw(ArrayIndexOutOfBounds(3))
  {
    ParseIntOfLongToString(n);
    BalanceDisplayCases(Some(LongToString(n)));
    if n >= Pow1024(3) {
      ScaleIndex(n, 3);
      ScaleIndex(n, 4);
    }
  }

  /** `formatSpeed(bytes, 1)`, with the source's scaling loop. */
  method FormatSpeed(bytes: Long) returns (r: Outcome<string>)
    ensures r == SpeedDisplay(bytes)
  {
    var adjusted := TruncDiv(bytes, ByteBase);
    var pos: nat := 0;
    while adjusted >= ByteBase
      invariant Scale(TruncDiv(bytes, ByteBase)) == (Scale(adjusted).0, Scale(adjusted).1 + pos)
      decreases adjusted
    {
      adjusted := adjusted / ByteBase;
      pos := pos + 1;
    }
    if pos < |NetSpeedUnits| {
      r := Returned(LongToString(adjusted) + " " + NetSpeedUnits[pos]);
    } else {
      r := Threw(ArrayIndexOutOfBounds(pos));
    }
  }

  /** `formatBalance(balance)`, with the `parseInt` guard and the scaling loop. */
  method FormatBalance(balance: Option<string>) returns (r: Outcome<string>)
    ensures r == BalanceDisplay(balance)
  {
    var parsed := ParsedBalance(balance);
    if parsed.None? {
      return Returned(InvalidBalance);
    }
    var adjusted := parsed.value;
    var pos: nat := 0;
    while adjusted >= ByteBase
      invariant Scale(parsed.value) == (Scale(adjusted).0, Scale(adjusted).1 + pos)
      decreases adjusted
    {
      adjusted := adjusted / ByteBase;
      pos := pos + 1;
    }
    if pos < |BalanceUnits| {
      r := Returned(LongToString(adjusted) + " " + BalanceUnits[pos]);
    } else {
      r := Threw(ArrayIndexOutOfBounds(pos));
    }
  }

  // ---------------------------------------------------------------------
  // Connection indicator
  // ---------------------------------------------------------------------

  /** The string resource shown in the connection slot. */
  datatype StatusLabel = Connecting | Backup | Normal

  /** The text colour of the connection slot. */
  datatype Colour = BlackLight | Red | Green

  /** What the connection slot shows: a caption, its colour and a suffix. */
  datatype ConnDisplay = ConnDisplay(caption: StatusLabel, colour: Colour, suffix: string)

  /** `renderConnStatus(status)`: an exact (case-sensitive) switch on the
      status; any other string is an entry address, shown with its first six
      characters, and `substring(0, 6)` throws when it is shorter. */
  function RenderConnStatus(status: string): (r: Outcome<ConnDisplay>)
    ensures r.Threw? <==> status != "connected" && status != "connecting" && status != "backup" && |status| < 6
    ensures r.Returned? ==>
      (r.value.caption == Connecting <==> status == "connected" || status == "connecting")
      && (r.value.caption == Backup <==> status == "backup")
      && (r.value.caption == Connecting ==> r.value.colour == BlackLight && r.value.suffix == "")
      && (r.value.caption == Backup ==> r.value.colour == Red && r.value.suffix == "")
      && (r.value.caption == Normal ==> r.value.colour == Green && r.value.suffix == " (" + status[..6] + ")")
  {
    match status
    case "connected" => Returned(ConnDisplay(Connecting, BlackLight, ""))
    case "connecting" => Returned(ConnDisplay(Connecting, BlackLight, ""))
    case "backup" => Returned(ConnDisplay(Backup, Red, ""))
    case _ =>
      if |status| < 6 then Threw(StringIndexOutOfBounds(6))
      else Returned(ConnDisplay(Normal, Green, " (" + status[..6] + ")"))
  }

  /** The status the NetInfo callback renders for an entry address. */
  function EntryStatus(entry: string): (s: string)
    ensures s != ""
    ensures s == "backup" <==> entry == "" || entry == "backup"
    ensures entry != "" ==> s == entry
  {
    if entry == "" then "backup" else entry
  }

  // ---------------------------------------------------------------------
  // The polling cascade
  // ---------------------------------------------------------------------

  datatype Summary = Summary(status: string, bytesRx: Long, bytesTx: Long)
  datatype NetInfo = NetInfo(exit: string, entry: string)
  datatype AccountInfo = AccountInfo(balance: Option<string>)

  /** The work handed to the asynchronous dispatcher. An AccountInfo fetch
      carries the time captured when it was issued; its callback uses it. */
  datatype Task = GetSummary | GetNetInfo | GetAccountInfo(capturedNow: Long)

  /** One submission to the dispatcher, with its timeout in milliseconds. */
  datatype Request = Request(task: Task, timeoutMs: nat)

  /** What the screen shows, or tells its parent, in order. */
  datatype Output =
    | ParentNotified(status: string)
    | TransferShown(text: string)
    | PubIpShown(address: string)
    | ConnectionShown(display: ConnDisplay)
    | BalanceShown(text: string)

  /** The refresh throttle `mBalanceUpdated + mBalanceRefreshEpoch < now`, on
      Java `long`s. */
  predicate BalanceDue(balanceUpdated: Long, now: Long) {
    WrapLong(balanceUpdated + BalanceRefreshEpoch) < now
  }

  /** The follow-up fetches a summary with status `status` triggers. */
  function SecondaryRequests(status: string, balanceUpdated: Long, now: Long): seq<Request> {
    if EqualsIgnoreCase(status, StatusConnected) then
      [Request(GetNetInfo, 2000)]
      + (if BalanceDue(balanceUpdated, now) then [Request(GetAccountInfo(now), 2000)] else [])
    else []
  }

  /** Follow-up fetches happen only for a "connected" status (in any case);
      then there is exactly one NetInfo fetch, and an AccountInfo fetch iff
      the last refresh is more than ten seconds old. */
  lemma SecondaryRequestsGated(status: string, balanceUpdated: Long, now: Long)
    ensures var r := SecondaryRequests(status, balanceUpdated, now);
      (r != [] <==> EqualsIgnoreCase(status, StatusConnected))
      && (r != [] ==> r[0] == Request(GetNetInfo, 2000)
                      && forall i :: 1 <= i < |r| ==> r[i].task.GetAccountInfo?)
      && ((exists i :: 0 <= i < |r| && r[i].task.GetAccountInfo?)
          <==> EqualsIgnoreCase(status, StatusConnected) && BalanceDue(balanceUpdated, now))
      && (forall i :: 0 <= i < |r| && r[i].task.GetAccountInfo? ==> r[i].task.capturedNow == now)
  {
    var r := SecondaryRequests(status, balanceUpdated, now);
    if EqualsIgnoreCase(status, StatusConnected) && BalanceDue(balanceUpdated, now) {
      assert r[1].task.GetAccountInfo?;
    }
  }

  /** Away from `long` overflow the throttle is the strict comparison
      `now - balanceUpdated > 10000`; with the initial `mBalanceUpdated = 0`
      the first connected cycle after t = 10 s always fetches the balance. */
  lemma BalanceDueMeaning(balanceUpdated: Long, now: Long)
    requires balanceUpdated <= MaxLong - BalanceRefreshEpoch
    ensures BalanceDue(balanceUpdated, now) <==> now - balanceUpdated > BalanceRefreshEpoch
    ensures balanceUpdated == 0 ==> (BalanceDue(balanceUpdated, now) <==> now > BalanceRefreshEpoch)
  {
  }

  /** The status fragment's own state, the requests it submitted and what it
      has shown so far. */
  class StatusFragment {
    var lastBytesRx: Long
    var lastBytesTx: Long
    var balanceUpdated: Long
    /** Every submission to the dispatcher, in order. */
    var requests: seq<Request>
    /** Everything shown on screen or sent to the parent, in order. */
    var outputs: seq<Output>

    constructor ()
      ensures lastBytesRx == 0 && lastBytesTx == 0 && balanceUpdated == 0
      ensures requests == [] && outputs == []
    {
      lastBytesRx, lastBytesTx, balanceUpdated := 0, 0, 0;
      requests, outputs := [], [];
    }

    /** `onCreateView`: the connection slot starts as "connecting". */
    method CreateView()
      modifies this`outputs
      ensures outputs == old(outputs) + [ConnectionShown(ConnDisplay(Connecting, BlackLight, ""))]
    {
      var shown := RenderConnStatus("connecting");
      outputs := outputs + [ConnectionShown(shown.value)];
    }

    /** `invalidate`: every call submits one summary fetch; calls that come
        while an earlier fetch is outstanding are not merged. */
    method Invalidate()
      modifies this`requests
      ensures requests == old(requests) + [Request(GetSummary, 200)]
    {
      requests := requests + [Request(GetSummary, 200)];
    }

    /** `mOnFetchingNewSummary.doTask`: a `null` summary changes nothing. For
        a summary, the parent is told the status; the transfer slot shows the
        received-bytes delta (never clamped) and both baselines move on; for a
        "connected" status the follow-up fetches are submitted. When
        `formatSpeed` throws, the `catch` drops the rest of the cycle. */
    method OnSummary(summary: Option<Summary>, now: Long)
      modifies this`lastBytesRx, this`lastBytesTx, this`requests, this`outputs
      ensures balanceUpdated == old(balanceUpdated)
      ensures summary.None? ==>
                lastBytesRx == old(lastBytesRx) && lastBytesTx == old(lastBytesTx)
                && requests == old(requests) && outputs == old(outputs)
      ensures summary.Some? && SpeedDisplay(WrapLong(summary.value.bytesRx - old(lastBytesRx))).Threw? ==>
                lastBytesRx == old(lastBytesRx) && lastBytesTx == old(lastBytesTx)
                && requests == old(requests)
                && outputs == old(outputs) + [ParentNotified(summary.value.status)]
      ensures summary.Some? && SpeedDisplay(WrapLong(summary.value.bytesRx - old(lastBytesRx))).Returned? ==>
                lastBytesRx == summary.value.bytesRx && lastBytesTx == summary.value.bytesTx
                && outputs == old(outputs)
                     + [ParentNotified(summary.value.status),
                        TransferShown(SpeedDisplay(WrapLong(summary.value.bytesRx - old(lastBytesRx))).value)]
                && requests == old(requests) + SecondaryRequests(summary.value.status, old(balanceUpdated), now)
    {
      if summary.None? {
        return;
      }
      var s := summary.value;
      outputs := outputs + [ParentNotified(s.status)];
      var rx := s.bytesRx;
      var speed := FormatSpeed(WrapLong(rx - lastBytesRx));
      if speed.Threw? {
        return;
      }
      outputs := outputs + [TransferShown(speed.value)];
      lastBytesRx := rx;
      lastBytesTx := s.bytesTx;
      if EqualsIgnoreCase(s.status, StatusConnected) {
        requests := requests + [Request(GetNetInfo, 2000)];
        if BalanceDue(balanceUpdated, now) {
          requests := requests + [Request(GetAccountInfo(now), 2000)];
        }
      }
    }

    /** The NetInfo callback, run for a NetInfo fetch this screen submitted:
        a `null` result does nothing; otherwise the exit
        address is shown, then the entry address is rendered ("backup" when
        empty). An exception from `renderConnStatus` escapes the callback. */
    method OnNetInfo(info: Option<NetInfo>) returns (escaped: Option<JavaException>)
      requires Request(GetNetInfo, 2000) in requests
      modifies this`outputs
      ensures info.None? ==> outputs == old(outputs) && escaped == None
      ensures info.Some? && RenderConnStatus(EntryStatus(info.value.entry)).Returned? ==>
                escaped == None
                && outputs == old(outputs)
                     + [PubIpShown(info.value.exit),
                        ConnectionShown(RenderConnStatus(EntryStatus(info.value.entry)).value)]
      ensures info.Some? && RenderConnStatus(EntryStatus(info.value.entry)).Threw? ==>
                escaped == Some(RenderConnStatus(EntryStatus(info.value.entry)).exception)
                && outputs == old(outputs) + [PubIpShown(info.value.exit)]
    {
      escaped := None;
      if info.None? {
        return;
      }
      outputs := outputs + [PubIpShown(info.value.exit)];
      var shown := RenderConnStatus(EntryStatus(info.value.entry));
      if shown.Threw? {
        escaped := Some(shown.exception);
        return;
      }
      outputs := outputs + [ConnectionShown(shown.value)];
    }

    /** The AccountInfo callback, run for an AccountInfo fetch this screen
        submitted at `capturedNow`: only a non-`null` result whose balance
        formats shows it and sets `mBalanceUpdated` to that time. An exception from `formatBalance` escapes
        the callback before either happens. */
    method OnAccountInfo(capturedNow: Long, info: Option<AccountInfo>) returns (escaped: Option<JavaException>)
      requires Request(GetAccountInfo(capturedNow), 2000) in requests
      modifies this`outputs, this`balanceUpdated
      ensures info.None? ==>
                outputs == old(outputs) && balanceUpdated == old(balanceUpdated) && escaped == None
      ensures info.Some? && BalanceDisplay(info.value.balance).Returned? ==>
                escaped == None
                && outputs == old(outputs) + [BalanceShown(BalanceDisplay(info.value.balance).value)]
                && balanceUpdated == capturedNow
      ensures info.Some? && BalanceDisplay(info.value.balance).Threw? ==>
                escaped == Some(BalanceDisplay(info.value.balance).exception)
                && outputs == old(outputs) && balanceUpdated == old(balanceUpdated)
    {
      escaped := None;
      if info.None? {
        return;
      }
      var text := FormatBalance(info.value.balance);
      if text.Threw? {
        escaped := Some(text.exception);
        return;
      }
      outputs := outputs + [BalanceShown(text.value)];
      balanceUpdated := capturedNow;
    }
  }

  /** A fresh screen sees "connected" summaries at `t`, `t` + 5 s and
      `t` + 11 s, and the balance fetched in the first cycle arrives in
      between: the second cycle does not fetch the balance, the third does. */
  method BalanceThrottleAcrossCycles(t: Long) returns (fetchedAt5s: bool, fetchedAt11s: bool)
    requires BalanceRefreshEpoch < t <= MaxLong - 11000
    ensures !fetchedAt5s && fetchedAt11s
  {
    var screen := new StatusFragment();
    var connected := Summary(StatusConnected, 0, 0);
    SpeedDisplayThrows(0);
    screen.OnSummary(Some(connected), t);
    assert screen.requests == [Request(GetNetInfo, 2000), Request(GetAccountInfo(t), 2000)];
    BalanceDisplayCases(Some("5"));
    var _ := screen.OnAccountInfo(t, Some(AccountInfo(Some("5"))));
    assert screen.balanceUpdated == t;
    screen.OnSummary(Some(connected), t + 5000);
    fetchedAt5s := screen.requests[|screen.requests| - 1].task.GetAccountInfo?;
    screen.OnSummary(Some(connected), t + 11000);
    fetchedAt11s := screen.requests[|screen.requests| - 1].task.GetAccountInfo?;
  }
}

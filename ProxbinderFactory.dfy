/** Acquiring the local daemon: start `libgeph.so proxbinder`, read the
    endpoint address it prints, bind an RPC client to it and number the
    handle from a process-wide counter. */
module ProxbinderFactory {
  import opened JavaLang

  /** What starting a command yields: an `IOException` from
      `ProcessBuilder.start`, or a running process and the lines its standard
      output will produce. */
  datatype Launch = LaunchFailed | Started(output: seq<string>)

  /** A handle on the running daemon: its instance id, the command it was
      started with, and the URL the RPC service is bound to. */
  datatype Proxbinder = Proxbinder(id: Int, command: seq<string>, serviceUrl: string)

  /** The daemon's command line. */
  function DaemonCommand(nativeLibraryDir: string): (cmd: seq<string>)
    ensures |cmd| == 2 && cmd[1] == "proxbinder"
    ensures cmd[0] == nativeLibraryDir + "/libgeph.so"
  {
    [nativeLibraryDir + "/libgeph.so", "proxbinder"]
  }

  /** Endpoint discovery on the lines of the daemon's output: the address
      read and how many lines were consumed. It is the first non-empty line,
      and nothing after it is read; when there is none every line is
      consumed and the address is the empty string. */
  function Discover(lines: seq<string>): (r: (string, nat))
    ensures r.1 <= |lines|
    ensures forall j :: 0 <= j < r.1 - 1 ==> lines[j] == ""
    ensures r.0 != "" ==> r.1 >= 1 && lines[r.1 - 1] == r.0
    ensures r.0 == "" ==> r.1 == |lines| && forall j :: 0 <= j < |lines| ==> lines[j] == ""
  {
    if lines == [] then ("", 0)
    else if lines[0] != "" then (lines[0], 1)
    else
      var t := Discover(lines[1..]);
      (t.0, t.1 + 1)
  }

  /** `k` leading empty lines and then `address` are read as `address`
      after `k + 1` lines, whatever follows. */
  lemma {:induction false} DiscoverAfterBlanks(k: nat, address: string, rest: seq<string>)
    requires address != ""
    ensures Discover(seq(k, _ => "") + [address] + rest) == (address, k + 1)
  {
    if k > 0 {
      var lines := seq(k, _ => "") + [address] + rest;
      assert lines[1..] == seq(k - 1, _ => "") + [address] + rest;
      DiscoverAfterBlanks(k - 1, address, rest);
    }
  }

  /** The scanner loop of `getProxbinder`: read lines while there are any,
      stopping at the first one that is not empty. */
  method ReadEndpoint(lines: seq<string>) returns (dest: string, consumed: nat)
    ensures (dest, consumed) == Discover(lines)
  {
    dest := "";
    var i := 0;
    while i < |lines|
      invariant 0 <= i <= |lines|
      invariant dest == ""
      invariant Discover(lines) == (Discover(lines[i..]).0, Discover(lines[i..]).1 + i)
    {
      var line := lines[i];
      assert lines[i..][1..] == lines[i + 1..];
      i := i + 1;
      if line != "" {
        dest := line;
        break;
      }
    }
    consumed := i;
  }

  /** The instance counter shared by every call (a static `AtomicInteger`). */
  class Factory {
    var counter: Int
    /** The ids handed out so far, in order. */
    ghost var issued: seq<Int>

    ghost predicate Valid()
      reads this
    {
      counter == WrapInt(|issued|)
      && forall k :: 0 <= k < |issued| ==> issued[k] == WrapInt(k + 1)
    }

    constructor ()
      ensures Valid() && issued == [] && counter == 0
    {
      counter := 0;
      issued := [];
    }

    /** `getProxbinder`: a launch failure yields `null` and leaves the counter
        alone; otherwise the address discovered on the output is bound as
        `"http://" + address` and the handle takes the next counter value. */
    method GetProxbinder(nativeLibraryDir: string, start: seq<string> -> Launch)
      returns (p: Option<Proxbinder>)
      requires Valid()
      modifies this
      ensures Valid()
      ensures start(DaemonCommand(nativeLibraryDir)).LaunchFailed? ==>
                p == None && counter == old(counter) && issued == old(issued)
      ensures start(DaemonCommand(nativeLibraryDir)).Started? ==>
                issued == old(issued) + [counter]
                && p == Some(Proxbinder(counter, DaemonCommand(nativeLibraryDir),
                                        "http://" + Discover(start(DaemonCommand(nativeLibraryDir)).output).0))
    {
      var command := DaemonCommand(nativeLibraryDir);
      var launch := start(command);
      if launch.LaunchFailed? {
        return None;
      }
      var dest, _ := ReadEndpoint(launch.output);
      var serviceUrl := "http://" + dest;
      counter := WrapInt(counter + 1);
      assert WrapInt(|issued| + 1) == counter by {
        assert (|issued| + 1 - counter) % 0x1_0000_0000 == 0;
        WrapIntCongruent(|issued| + 1, old(counter) + 1);
      }
      issued := issued + [counter];
      p := Some(Proxbinder(counter, command, serviceUrl));
    }
  }

  lemma WrapIntCongruent(x: int, y: int)
    requires (x - y) % 0x1_0000_0000 == 0
    ensures WrapInt(x) == WrapInt(y)
  {
  }

  /** The first 2^31 - 1 successful launches receive ids 1, 2, 3, ...: each
      positive, each larger than every earlier one. */
  lemma IssuedIdsIncrease(issued: seq<Int>)
    requires forall k :: 0 <= k < |issued| ==> issued[k] == WrapInt(k + 1)
    requires |issued| <= MaxInt
    ensures forall k :: 0 <= k < |issued| ==> issued[k] == k + 1
    ensures forall i, j :: 0 <= i < j < |issued| ==> 0 < issued[i] < issued[j]
  {
  }

  /** The counter is a 32-bit `int`: the launch after id 2^31 - 1 receives
      the negative id -2^31. */
  lemma CounterWraps()
    ensures WrapInt(MaxInt + 1) == MinInt
  {
  }
}

/**
 Whether a drain has to be waited for, and when it is over: the statistics of an endpoint, the entry
 in drainList and what is asked of both (provider/haproxy/haproxy.go:229-373, 375-436).
 */
module DrainWaiting {
  import opened Prelude
  import opened Text
  import opened DrainModel
  import opened DrainRecords

  // ---------------------------------------------------------------------------------------
  // Current sessions
  // ---------------------------------------------------------------------------------------

  /** One line of `show stat`: the cells by column. */
  type Stat = map<string, string>

  /** The current sessions of one line; a line without the cell counts as none. */
  function SessionsOf(row: Stat): Result<int> {
    if "scur" !in row || row["scur"] == "" then Ok(0)
    else
      match Atoi(row["scur"])
      case None => Err
      case Some(n) => Ok(n)
  }

  function TotalSessions(rows: seq<Stat>): Result<int> {
    if rows == [] then Ok(0)
    else
      var front, last := TotalSessions(rows[..|rows| - 1]), SessionsOf(rows[|rows| - 1]);
      if front.Err? || last.Err? then Err else Ok(front.value + last.value)
  }

  /** readCurrentStats: the sessions of all lines of the endpoint; an error without any line. */
  function CurrentSessions(stats: Result<map<Name, seq<Stat>>>, name: Name): Result<int> {
    if stats.Err? || name !in stats.value then Err else TotalSessions(stats.value[name])
  }

  method ReadCurrentStats(stats: Result<map<Name, seq<Stat>>>, name: Name) returns (total: Result<int>)
    ensures total == CurrentSessions(stats, name)
  {
    if stats.Err? {
      return Err;
    }
    if name !in stats.value {
      return Err;
    }
    var rows := stats.value[name];
    var sum := 0;
    for i := 0 to |rows|
      invariant TotalSessions(rows[..i]) == Ok(sum)
    {
      assert rows[..i + 1][..i] == rows[..i];
      if "scur" in rows[i] && rows[i]["scur"] != "" {
        var escur := Atoi(rows[i]["scur"]);
        if escur.None? {
          ErrorStays(rows, i + 1);
          return Err;
        }
        sum := sum + escur.value;
      }
    }
    assert rows[..|rows|] == rows;
    return Ok(sum);
  }

  lemma {:induction false} ErrorStays(rows: seq<Stat>, n: nat)
    requires n <= |rows| && TotalSessions(rows[..n]).Err?
    ensures TotalSessions(rows).Err?
  {
    if n == |rows| {
      assert rows[..n] == rows;
    } else {
      var front := rows[..|rows| - 1];
      assert front[..n] == rows[..n];
      ErrorStays(front, n);
    }
  }

  ghost predicate Blameless(row: Stat) {
    "scur" in row && row["scur"] != "" ==> exists n: int :: Denotes(row["scur"], n)
  }

  ghost predicate Busy(row: Stat) {
    "scur" in row && row["scur"] != "" && !Denotes(row["scur"], 0)
  }

  /** The sum is known exactly if every count is a number, and if none is negative, it is zero exactly
      if every count is. */
  lemma {:induction false} TotalIsZeroIff(rows: seq<Stat>)
    ensures TotalSessions(rows).Ok? <==> forall i :: 0 <= i < |rows| ==> Blameless(rows[i])
    ensures (forall i :: 0 <= i < |rows| ==> SessionsOf(rows[i]).Ok? && SessionsOf(rows[i]).value >= 0) ==>
              && TotalSessions(rows).Ok? && TotalSessions(rows).value >= 0
              && (TotalSessions(rows).value == 0 <==> forall i :: 0 <= i < |rows| ==> !Busy(rows[i]))
  {
    hide Denotes;
    if rows != [] {
      var n := |rows| - 1;
      TotalIsZeroIff(rows[..n]);
      RowIsKnownIff(rows[n]);
      assert rows == rows[..n] + [rows[n]];
    }
  }

  lemma RowIsKnownIff(row: Stat)
    ensures SessionsOf(row).Ok? <==> Blameless(row)
    ensures SessionsOf(row).Ok? ==> (SessionsOf(row).value == 0 <==> !Busy(row))
    ensures SessionsOf(row).Ok? && "scur" in row && row["scur"] != "" ==> Denotes(row["scur"], SessionsOf(row).value)
  {
    hide Denotes, Atoi;
    if "scur" in row && row["scur"] != "" {
      var n := Atoi(row["scur"]);
      AtoiIff(row["scur"], 0);
      if n.Some? {
        AtoiIff(row["scur"], n.value);
      }
      forall m: int | Denotes(row["scur"], m) ensures n == Some(m) {
        AtoiIff(row["scur"], m);
      }
    }
  }

  // ---------------------------------------------------------------------------------------
  // Whether to wait
  // ---------------------------------------------------------------------------------------

  /** What AddEndpointForDrain asks: the sessions, and whether an older process is around. If that is
      not known, it is taken to be. */
  function StatsOf(current: Result<int>, older: Result<bool>): Stats {
    if current.Err? then NoStats else Sessions(current.value == 0, older != Ok(false))
  }

  /** Nothing is left to wait for. */
  predicate NothingLeft(current: Result<int>, older: Result<bool>) {
    current == Ok(0) && older == Ok(false)
  }

  predicate AllConfirmed(s: Sys, name: Name, io: IO, stats: Stats) {
    forall key | key in s.servers && Zeroes(s, name, io, stats, key) :: Confirmed(io.At(key), s.servers[key].weight, 0)
  }

  /** Exactly when a drain gets an endpoint listed, and under which process: a named endpoint whose pid,
      statistics and states could be read and whose commands were all confirmed is left unlisted if
      and only if nothing is left to wait for. Nobody else's entry changes. */
  lemma ListedIff(s: Sys, name: Name, io: IO, current: Result<int>, older: Result<bool>)
    requires WellFiled(s)
    ensures var stats := StatsOf(current, older);
            var list := Drain(s, name, io, stats).drainList;
            && (name in list <==>
                  || name in s.drainList
                  || (name != "" && io.pidOk && current.Ok? && io.readOk && AllConfirmed(s, name, io, stats)
                      && !NothingLeft(current, older)))
            && (name in list && name !in s.drainList ==> list[name] == if current == Ok(0) then "" else s.pid)
            && (name in s.drainList ==> list == s.drainList)
            && list - {name} == s.drainList - {name}
  {
    hide NameOf, Verified, Confirmed;
    var stats := StatsOf(current, older);
    if DrainProceeds(s, name, io, stats) {
      var orders := DrainOrders(s, name);
      forall key | key in s.servers
        ensures Zeroes(s, name, io, stats, key) <==> key in orders
        ensures key in orders ==>
                  (Confirmed(io.At(key), s.servers[key].weight, 0) <==>
                   Verified(io.At(key), s.servers[key].weight, orders[key]))
      {
        ConfirmedIsVerified(io.At(key), s.servers[key].weight, 0);
      }
      assert AllConfirmed(s, name, io, stats) <==> !SomeUnverified(s.servers, orders, io);
    }
  }

  // ---------------------------------------------------------------------------------------
  // Whether it is over
  // ---------------------------------------------------------------------------------------

  /** What IsEndpointDrained can find out: the current pid, whether the listed process still exists, the
      sessions, and whether an older process is around. */
  datatype Probe = Probe(pidOk: bool, alive: Result<bool>, current: Result<int>, older: Result<bool>)

  /** Does the process of this pid exist, if the text is one. */
  function Exists(pid: Pid, alive: Result<bool>): Result<bool> {
    if Atoi(pid).None? || Atoi(pid).value < 1 then Err else alive
  }

  predicate IsDrained(entry: Option<Pid>, pid: Pid, probe: Probe) {
    && entry.Some? && probe.pidOk
    && if entry.value == pid then probe.current == Ok(0)
       else if entry.value == "" then probe.current == Ok(0) && probe.older == Ok(false)
       else Exists(entry.value, probe.alive) == Ok(false)
  }

  /** An endpoint that has just been listed has to be waited for: on the same statistics its drain is
      not over. A pid that can be read is a positive number, hence not empty. */
  lemma ListedIsNotDrained(s: Sys, name: Name, io: IO, current: Result<int>, older: Result<bool>, probe: Probe)
    requires WellFiled(s) && s.pid != "" && name !in s.drainList
    requires probe.current == current && probe.older == older
    ensures var t := Drain(s, name, io, StatsOf(current, older));
            !IsDrained(Lookup(t.drainList, name), s.pid, probe)
  {
    hide Drain, AllConfirmed;
    ListedIff(s, name, io, current, older);
  }

  /** A drain that is over leaves nothing behind: the listed process had no sessions any more while it
      was the current one, or is gone; or, listed without sessions, the current process has none and no
      older one is around. An endpoint that is not listed is never reported drained. */
  lemma DrainedLeavesNothing(entry: Option<Pid>, pid: Pid, probe: Probe)
    requires IsDrained(entry, pid, probe)
    ensures entry.Some?
    ensures entry.value == "" && pid != "" ==> NothingLeft(probe.current, probe.older)
    ensures entry.value == pid ==> probe.current == Ok(0)
    ensures entry.value !in {"", pid} ==> probe.alive == Ok(false) && exists n: int :: n >= 1 && Denotes(entry.value, n)
  {
    hide Denotes;
    if entry.value !in {"", pid} {
      AtoiIff(entry.value, Atoi(entry.value).value);
    }
  }

  /** And a drain does end: whatever the entry, once the current process has no sessions and the others
      are gone, it is reported. */
  lemma DrainEnds(entry: Pid, pid: Pid, n: int)
    requires entry in {"", pid} || (n >= 1 && Denotes(entry, n))
    ensures IsDrained(Some(entry), pid, Probe(true, Ok(false), Ok(0), Ok(false)))
  {
    hide Denotes;
    AtoiIff(entry, n);
  }
}

/**
Whole runs of the lock server (bundle/fs/lockd/svc4proc.c, svclock.c, svcsubs.c, host.c): requests, each of which looks
up its host and its file and gives both back, collections of hosts, and the release of a host's resources.
*/
module LockdServing {
  import opened Common
  import opened LockdFiles
  import opened LockdHosts

  /** What a request wants of its file: a share, its end, a lock which is granted, blocks or is refused, its end. */
  datatype Want =
    | WantShare(owner: seq<nat>, access: bv32, mode: bv32)
    | WantUnshare(owner: seq<nat>)
    | WantLock(pid: nat, verdict: Verdict)
    | WantUnlock(pid: nat)

  datatype Verdict = VerdictGranted | VerdictBlocked | VerdictRefused

  /** Whether there is memory for a host and for a share, and whether the file can be opened. */
  datatype Env = Env(memory: bool, opens: bool)

  datatype Call =
    | Request(host: HostId, handle: Handle, want: Want, now: nat, env: Env)
    | Collect(net: Option<NetId>, clock: HostId -> nat)
    | FreeHost(host: HostId, stuck: (HostId, nat) -> bool)

  /** Between calls a host has the net of its address, and no reference but the table's. */
  ghost predicate AtRest(hosts: map<HostId, Host>, where: HostId -> NetId) {
    forall h :: h in hosts ==> hosts[h].net == where(h) && hosts[h].count == 1
  }

  /** What the request may make of its file x. */
  ghost predicate Performed(x: File, y: File, host: HostId, want: Want, env: Env) {
    match want
    case WantShare(owner, access, mode) =>
      var t := Share(host, owner, access, mode);
      if Conflicts(x.shares, t) then y == x
      else (y == x && !env.memory) || (y == x.(shares := y.shares) && Shared(x.shares, y.shares, t))
    case WantUnshare(owner) =>
      || (y == x && forall j :: 0 <= j < |x.shares| ==> x.shares[j].host != host || x.shares[j].owner != owner)
      || exists i :: 0 <= i < |x.shares| && FirstOf(x.shares, i, host, owner)
                     && y == x.(shares := x.shares[..i] + x.shares[i + 1..])
    case WantLock(pid, VerdictGranted) => y == x.(posix := x.posix + [PosixLock(true, host, pid)])
    case WantLock(_, VerdictBlocked) =>
      y == x.(count := x.count + 1, blocks := [LockdFiles.Block(host, true, false)] + x.blocks)
    case WantLock(_, VerdictRefused) => y == x
    case WantUnlock(pid) => y == x.(posix := Without(x.posix, PosixLock(true, host, pid)))
  }

  /** The request on its file, to which it holds a reference. */
  method Perform(server: Server, f: FileId, host: HostId, want: Want, env: Env)
    requires server.Valid() && f in server.files && host in server.hosts
    requires server.files[f].count > |server.files[f].blocks|
    modifies server`files
    ensures server.Valid() && f in server.files && server.files[f].count > |server.files[f].blocks|
    ensures Elsewhere(old(server.files), server.files, f)
    ensures Performed(old(server.files)[f], server.files[f], host, want, env)
  {
    match want
    case WantShare(owner, access, mode) =>
      var r := server.ShareFile(f, host, owner, access, mode, env.memory);
    case WantUnshare(owner) =>
      server.UnshareFile(f, host, owner);
    case WantUnlock(pid) =>
      server.Unlock(f, host, pid);
    case WantLock(pid, verdict) =>
      if verdict == VerdictGranted {
        server.SetLock(f, host, pid);
      } else if verdict == VerdictBlocked {
        server.Block(f, host);
      }
  }

  /** The file of a handle, or one just made for it. */
  ghost function FileOf(files: map<FileId, File>, f: FileId, handle: Handle): File {
    if f in files then files[f] else File(handle, 0, [], [], 0, [])
  }

  /** From x the request made y, which stays in the table if it holds anything. */
  ghost predicate Left(x: File, y: File, r: Option<File>, host: HostId, want: Want, env: Env) {
    Performed(x, y, host, want, env) && r == if Holds(y) then Some(y) else None
  }

  lemma HeldMeanwhile(x: File, y: File, host: HostId, want: Want, env: Env)
    requires y.count > 0 && Performed(x.(count := x.count + 1), y, host, want, env)
    ensures Performed(x, y.(count := y.count - 1), host, want, env)
  {
  }

  /** Request on the file f of a handle, which had become y by the end. */
  ghost predicate Done(files: map<FileId, File>, files': map<FileId, File>, f: FileId, y: File, handle: Handle,
                       host: HostId, want: Want, env: Env) {
    && (if f in files then files[f].handle == handle else forall g :: g in files ==> files[g].handle != handle)
    && files'.Keys <= files.Keys + {f} && (forall g :: g in files && g != f ==> g in files' && files'[g] == files[g])
    && Left(FileOf(files, f, handle), y, if f in files' then Some(files'[f]) else None, host, want, env)
  }

  /** The request on a file just looked up, and the release of the file. */
  method OnFile(server: Server, f: FileId, ghost x: File, host: HostId, want: Want, env: Env) returns (ghost y: File)
    requires server.Valid() && host in server.hosts && f in server.files && x.count >= |x.blocks|
    requires server.files[f] == x.(count := x.count + 1)
    modifies server`files, server`list
    ensures server.Valid() && Elsewhere(old(server.files), server.files, f)
    ensures Left(x, y, if f in server.files then Some(server.files[f]) else None, host, want, env)
  {
    Perform(server, f, host, want, env);
    ghost var z := server.files[f];
    HeldMeanwhile(x, z, host, want, env);
    y := z.(count := z.count - 1);
    server.ReleaseFile(f);
  }

  /** The lookup of the file, the request, and the release of the file; nothing when it cannot be opened. */
  method ServeFile(server: Server, host: HostId, handle: Handle, want: Want, env: Env)
    returns (f: Option<FileId>, ghost y: File)
    requires server.Valid() && host in server.hosts
    modifies server`files, server`list, server`nextId
    ensures server.Valid() && (f.Some? <==> env.opens)
    ensures f.Some? ==> Done(old(server.files), server.files, f.value, y, handle, host, want, env)
  {
    var r := server.LookupFile(handle, env.opens);
    f, y := None, File(handle, 0, [], [], 0, []);
    if env.opens {
      f := r;
      y := OnFile(server, r.value, FileOf(old(server.files), r.value, handle), host, want, env);
    }
  }

  /**
  nlm4svc_retrieve_args, the request, and the release of file and host. The request is served if there is the memory
  for its host and its file can be opened.
  */
  method Serve(server: Server, host: HostId, net: NetId, handle: Handle, want: Want, now: nat, env: Env)
    returns (f: Option<FileId>, ghost y: File)
    requires server.Valid() && (host in server.hosts ==> server.hosts[host].net == net)
    modifies server
    ensures server.Valid() && old(server.hosts.Keys) <= server.hosts.Keys <= old(server.hosts.Keys) + {host}
    ensures forall h :: h in server.hosts && h != host ==> server.hosts[h] == old(server.hosts)[h]
    ensures host in server.hosts ==>
              && server.hosts[host].net == net && server.hosts[host].expires == (now + 300 * server.hz) % U64
              && server.hosts[host].count == if host in old(server.hosts) then old(server.hosts)[host].count else 1
    ensures f.Some? <==> (host in old(server.hosts) || env.memory) && env.opens
    ensures f.Some? ==>
              host in server.hosts && Done(old(server.files), server.files, f.value, y, handle, host, want, env)
  {
    var found := server.LookupHost(host, net, now, env.memory);
    f, y := None, File(handle, 0, [], [], 0, []);
    if found {
      f, y := ServeFile(server, host, handle, want, env);
      server.ReleaseHost(host);
    }
  }

  /** The times of a run: from j0 on, for less than a sixteenth of the clock's range. */
  ghost predicate InTime(call: Call, j0: nat) {
    match call
    case Request(_, _, _, now, _) => j0 <= now <= j0 + LONGEST
    case Collect(_, clock) => forall h :: j0 <= clock(h) <= j0 + LONGEST
    case FreeHost(_, _) => true
  }

  /** The time when the 300 seconds of host h are over, after a call. */
  ghost function Expiry(expiry: HostId -> nat, call: Call, hz: nat): HostId -> nat {
    h => if call.Request? && call.host == h then call.now + 300 * hz else expiry(h)
  }

  /** What h_expires stands for. */
  ghost predicate Timed(hosts: map<HostId, Host>, expiry: HostId -> nat, j0: nat) {
    forall h :: h in hosts ==> hosts[h].expires == expiry(h) % U64 && j0 <= expiry(h) <= j0 + 2 * LONGEST
  }

  const LONGEST: nat := U64 / 16

  /** Whether host h, which is there before the call, is gone after it. */
  ghost predicate Goes(call: Call, h: HostId, net: NetId, owns: bool, expiry: nat) {
    call.Collect? && (call.net == None || call.net == Some(net)) && !owns && expiry <= call.clock(h)
  }

  /** The hosts after the call: one may have come by a request, and others gone. */
  ghost predicate HostsAfter(hosts: map<HostId, Host>, hosts': map<HostId, Host>, files: map<FileId, File>, call: Call,
                             where: HostId -> NetId, expiry: HostId -> nat) {
    && (forall h :: h in hosts ==> (h !in hosts' <==> Goes(call, h, where(h), Owner(files, h), expiry(h))))
    && (forall h :: h in hosts' && h !in hosts ==> call.Request? && call.host == h)
  }

  lemma RequestTimed(hosts: map<HostId, Host>, hosts': map<HostId, Host>, call: Call, expiry: HostId -> nat, hz: nat,
                     j0: nat)
    requires Timed(hosts, expiry, j0) && InTime(call, j0) && call.Request? && hz <= 10000
    requires forall h :: h in hosts' && h != call.host ==> h in hosts && hosts'[h] == hosts[h]
    requires call.host in hosts' ==> hosts'[call.host].expires == (call.now + 300 * hz) % U64
    ensures Timed(hosts', Expiry(expiry, call, hz), j0)
  {
  }

  /** A collection by true times, for hosts at rest. */
  method CollectCall(server: Server, call: Call, where: HostId -> NetId, ghost expiry: HostId -> nat, ghost j0: nat)
    requires server.Valid() && AtRest(server.hosts, where) && Timed(server.hosts, expiry, j0)
    requires InTime(call, j0) && call.Collect?
    modifies server
    ensures server.Valid() && AtRest(server.hosts, where) && Timed(server.hosts, expiry, j0)
    ensures HostsAfter(old(server.hosts), server.hosts, old(server.files), call, where, expiry)
  {
    server.CollectAt(call.net, call.clock, expiry);
  }

  method RequestCall(server: Server, call: Call, where: HostId -> NetId, ghost expiry: HostId -> nat, ghost j0: nat)
    requires server.Valid() && AtRest(server.hosts, where) && Timed(server.hosts, expiry, j0)
    requires InTime(call, j0) && call.Request? && server.hz <= 10000
    modifies server
    ensures server.Valid() && AtRest(server.hosts, where)
    ensures Timed(server.hosts, Expiry(expiry, call, server.hz), j0)
    ensures HostsAfter(old(server.hosts), server.hosts, old(server.files), call, where, expiry)
  {
    ghost var y;
    var f;
    f, y := Serve(server, call.host, where(call.host), call.handle, call.want, call.now, call.env);
    RequestTimed(old(server.hosts), server.hosts, call, expiry, server.hz, j0);
  }

  /**
  Any call. A host that is there goes by a collection of its net alone, when it owns nothing and its 300 seconds since
  the last request are over; and then it does go.
  */
  method Step(server: Server, call: Call, where: HostId -> NetId, ghost expiry: HostId -> nat, ghost j0: nat)
    requires server.Valid() && AtRest(server.hosts, where) && Timed(server.hosts, expiry, j0)
    requires InTime(call, j0) && server.hz <= 10000
    modifies server
    ensures server.Valid() && AtRest(server.hosts, where)
    ensures Timed(server.hosts, Expiry(expiry, call, server.hz), j0)
    ensures HostsAfter(old(server.hosts), server.hosts, old(server.files), call, where, expiry)
  {
    match call
    case Request(_, _, _, _, _) =>
      RequestCall(server, call, where, expiry, j0);
    case Collect(_, _) =>
      CollectCall(server, call, where, expiry, j0);
    case FreeHost(host, stuck) =>
      var failed := server.FreeHostResources(host, stuck);
  }

  /** The times when the hosts' 300 seconds are over, after a run. */
  ghost function ExpiryAfter(calls: seq<Call>, hz: nat): HostId -> nat {
    if calls == [] then (h => 0) else Expiry(ExpiryAfter(calls[..|calls| - 1], hz), calls[|calls| - 1], hz)
  }

  /**
  Any run of calls from an empty server on: whoever owns a share, a lock or a block is a host that has not been
  destroyed, in spite of the collections, and although shares hold no reference; no request leaves a reference on
  its host behind; and every host's time is 300 seconds from its last request.
  */
  method Run(calls: seq<Call>, where: HostId -> NetId, hz: nat, ghost j0: nat) returns (server: Server)
    requires hz <= 10000 && forall k :: 0 <= k < |calls| ==> InTime(calls[k], j0)
    ensures server.Valid() && fresh(server)
    ensures OwnersLive(server.files, server.hosts.Keys) && AtRest(server.hosts, where)
    ensures Timed(server.hosts, ExpiryAfter(calls, hz), j0)
  {
    server := new Server(hz);
    for k := 0 to |calls|
      invariant fresh(server) && server.hz == hz && server.Valid() && AtRest(server.hosts, where)
      invariant Timed(server.hosts, ExpiryAfter(calls[..k], hz), j0)
    {
      assert calls[..k + 1][..k] == calls[..k];
      Step(server, calls[k], where, ExpiryAfter(calls[..k], hz), j0);
    }
    assert calls[..|calls|] == calls;
  }
}

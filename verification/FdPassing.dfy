/**
 Passing descriptors over a UNIX domain socket: the reply framing, the server's
 descriptor accounting and the client's decision, as in lib/apue_unix_socket.cpp.

 `open`, `sendmsg`, `recvmsg` and the domain check are answered by the kernel; every
 answer is possible here.
 */
module FdPassing {
  import opened Wrappers
  import opened Files
  import opened Decimal
  import Requests

  const HEADER := 16
  const MAX_ERR_MSG := 1024

  datatype Status = Status(code: int, msg: seq<byte>) {
    predicate HasError() {
      code != 0 || msg != []
    }
  }

  function Ascii(s: string): (r: seq<byte>)
    ensures |r| == |s|
  {
    seq(|s|, i requires 0 <= i < |s| => (s[i] as int) % 256)
  }

  // ----- the wire -----

  /** `n` in `k` bytes, lowest first. */
  function LittleEndian(n: nat, k: nat): (r: seq<byte>)
    ensures |r| == k
  {
    if k == 0 then [] else [n % 256] + LittleEndian(n / 256, k - 1)
  }

  function FromLittleEndian(s: seq<byte>): nat {
    if s == [] then 0 else s[0] + 256 * FromLittleEndian(s[1..])
  }

  function Pow256(k: nat): nat {
    if k == 0 then 1 else 256 * Pow256(k - 1)
  }

  lemma {:induction false} BytesBack(n: nat, k: nat)
    requires n < Pow256(k)
    ensures FromLittleEndian(LittleEndian(n, k)) == n
  {
    if k > 0 {
      BytesBack(n / 256, k - 1);
      assert LittleEndian(n, k)[1..] == LittleEndian(n / 256, k - 1);
    }
  }

  /** A signed 32-bit int as its bit pattern, and back. */
  function Pattern(n: int): nat
    requires Requests.IsInt(n)
  {
    if n < 0 then n + 0x1_0000_0000 else n
  }

  function FromPattern(u: nat): int {
    if u >= 0x8000_0000 then u - 0x1_0000_0000 else u
  }

  /** `WireHeader` as it lies in memory: the code, four bytes of padding with any content, the length. */
  function Header(code: int, padding: seq<byte>, len: nat): seq<byte>
    requires Requests.IsInt(code)
  {
    LittleEndian(Pattern(code), 4) + padding + LittleEndian(len, 8)
  }

  function HeaderCode(h: seq<byte>): int
    requires |h| == HEADER
  {
    FromPattern(FromLittleEndian(h[..4]))
  }

  function HeaderLength(h: seq<byte>): nat
    requires |h| == HEADER
  {
    FromLittleEndian(h[8..])
  }

  lemma HeaderBack(code: int, padding: seq<byte>, len: nat)
    requires Requests.IsInt(code) && |padding| == 4 && len <= MAX_ERR_MSG
    ensures |Header(code, padding, len)| == HEADER
    ensures HeaderCode(Header(code, padding, len)) == code && HeaderLength(Header(code, padding, len)) == len
  {
    var h := Header(code, padding, len);
    assert h[..4] == LittleEndian(Pattern(code), 4) && h[8..] == LittleEndian(len, 8);
    assert Pow256(4) == 0x1_0000_0000;
    assert Pow256(8) >= Pow256(4) by { assert Pow256(8) == 0x1_0000_0000 * Pow256(4); }
    BytesBack(Pattern(code), 4);
    BytesBack(len, 8);
  }

  /** What `sendmsg` is given: the bytes, and a descriptor if one is attached. */
  datatype Message = Message(bytes: seq<byte>, fd: Option<int>)

  /** Error messages are cut to 1024 bytes. */
  function Clipped(msg: seq<byte>): (r: seq<byte>)
    ensures r <= msg && |r| == if |msg| < 1024 then |msg| else 1024
  {
    if |msg| <= MAX_ERR_MSG then msg else msg[..MAX_ERR_MSG]
  }

  ghost predicate Frames(bytes: seq<byte>, padding: seq<byte>, status: Status)
    requires Requests.IsInt(status.code)
  {
    |padding| == 4 && bytes == Header(status.code, padding, |Clipped(status.msg)|) + Clipped(status.msg)
  }

  /** The reply that carries `fd` with `status`. */
  ghost predicate Carries(m: Message, fd: int, status: Status)
    requires Requests.IsInt(status.code)
  {
    && (exists padding :: Frames(m.bytes, padding, status))
    && m.fd == if fd >= 0 && !status.HasError() then Some(fd) else None
  }

  // ----- the server -----

  /** The C string in a `std::string`: up to the first zero byte. */
  function CString(s: seq<byte>): (r: seq<byte>)
    ensures r <= s && 0 !in r && (|r| < |s| ==> s[|r|] == 0)
    ensures 0 !in s ==> r == s
  {
    if s == [] || s[0] == 0 then []
    else
      var r := CString(s[1..]);
      assert forall b :: b in s[1..] ==> b in s;
      [s[0]] + r
  }

  /** A call of `open` and how it went; `file` is the open file the descriptor stands for. */
  datatype OpenCall = OpenCall(path: seq<byte>, flags: int, fd: int, errno: int, file: nat) {
    predicate Possible() {
      Requests.IsInt(errno) && if fd >= 0 then errno == 0 else errno > 0
    }
  }

  /** The descriptor a request led to, or -1. */
  function Target(calls: seq<OpenCall>): int {
    if calls == [] then -1 else calls[|calls| - 1].fd
  }

  /** The answer to `req`, given the calls of `open` made for it. */
  function Answer(req: Requests.Request, calls: seq<OpenCall>): Status {
    match req
    case BadOpcode => Status(0, Ascii("Empty request or invalid opcode format"))
    case Unknown(op) => Status(0, Ascii("Unknown command opcode: ") + Requests.IntText(op))
    case BadArguments => Status(0, Ascii("Invalid arguments for OPEN (expected: path mode)"))
    case Open(_, _) => Status(if calls == [] then 0 else calls[|calls| - 1].errno, [])
  }

  /** The padding of an uninitialised `WireHeader`. */
  method Indeterminate() returns (padding: seq<byte>)
    ensures |padding| == 4
  {
    var a: byte, b: byte, c: byte, d: byte := *, *, *, *;
    padding := [a, b, c, d];
  }

  /** `open` is called once for a well-formed OPEN, with the path and mode of the request, and not at all otherwise. */
  ghost predicate CallsFor(req: Requests.Request, calls: seq<OpenCall>) {
    if req.Open? then
      && |calls| == 1 && calls[0].path == CString(req.path) && calls[0].flags == req.mode
      && calls[0].Possible()
    else calls == []
  }

  /** A call of `sendmsg`: its result, and the open file that the kernel passes on with it. */
  datatype Sent = Sent(message: Message, result: int, passed: Option<nat>)

  /** The server's process: its open descriptors, and the system calls it made. */
  class Server {
    const unixDomain: bool
    /** `sendmsg` fails only for a descriptor that is not open. */
    const connected: bool
    var descriptors: map<int, nat>
    ghost var opens: seq<OpenCall>
    ghost var closes: seq<int>
    var sent: seq<Sent>

    /** `open`: a new descriptor for some file, or -1 and an error number. */
    method Open(path: seq<byte>, flags: int) returns (fd: int, errno: int, ghost call: OpenCall)
      modifies this`descriptors, this`opens
      ensures call.path == path && call.flags == flags && call.fd == fd && call.errno == errno && call.Possible()
      ensures opens == old(opens) + [call]
      ensures fd < 0 ==> descriptors == old(descriptors)
      ensures fd >= 0 ==> fd !in old(descriptors) && descriptors == old(descriptors)[fd := call.file]
    {
      var succeeds: bool, number: int, file: nat := *, *, *;
      if succeeds && number >= 0 && number !in descriptors {
        fd, errno := number, 0;
        descriptors := descriptors[fd := file];
      } else {
        fd, errno := -1, if 0 < number < 0x8000_0000 then number else 1;
      }
      call := OpenCall(path, flags, fd, errno, file);
      opens := opens + [call];
    }

    method Close(fd: int)
      requires fd in descriptors
      modifies this`descriptors, this`closes
      ensures descriptors == old(descriptors) - {fd} && closes == old(closes) + [fd]
    {
      descriptors, closes := descriptors - {fd}, closes + [fd];
    }

    /** `sendmsg`: it fails on a descriptor that is not open, and else passes on the file it stands for. */
    method SendMsg(m: Message) returns (r: int)
      modifies this`sent
      ensures -1 <= r <= 0
      ensures m.fd.Some? && m.fd.value !in descriptors ==> r == -1
      ensures connected && (m.fd.Some? ==> m.fd.value in descriptors) ==> r == 0
      ensures sent == old(sent) + [Sent(m, r, if r == 0 && m.fd.Some? then Some(descriptors[m.fd.value]) else None)]
    {
      var possible := m.fd.None? || m.fd.value in descriptors;
      r :| -1 <= r <= 0 && (!possible ==> r == -1) && (connected && possible ==> r == 0);
      sent := sent + [Sent(m, r, if r == 0 && m.fd.Some? then Some(descriptors[m.fd.value]) else None)];
    }

    /** `unix_socket_send_fd`. */
    method SendFd(fd: int, status: Option<Status>) returns (r: int)
      requires status.Some? ==> Requests.IsInt(status.value.code)
      modifies this`sent
      ensures !unixDomain ==> r == -1 && sent == old(sent)
      ensures unixDomain ==> |sent| == |old(sent)| + 1 && sent[..|old(sent)|] == old(sent)
      ensures unixDomain ==>
                SentWith(sent[|old(sent)|], r, fd, if status.Some? then status.value else Status(0, []))
    {
      if !unixDomain {
        return -1;
      }
      var p := if status.Some? then status.value else Status(0, []);
      var text := Clipped(p.msg);
      var padding := Indeterminate();
      var m := Message(Header(p.code, padding, |text|) + text, None);
      if fd >= 0 && !p.HasError() {
        m := m.(fd := Some(fd));
      }
      assert Frames(m.bytes, padding, p);
      assert Carries(m, fd, p);
      r := SendMsg(m);
    }

    /** One `sendmsg` that carries `fd` with `status`, made while `descriptors` were open. */
    ghost predicate SentWith(x: Sent, r: int, fd: int, status: Status)
      requires Requests.IsInt(status.code)
      reads this
    {
      && Carries(x.message, fd, status) && x.result == r && -1 <= r <= 0
      && (x.message.fd.Some? && fd !in descriptors ==> r == -1)
      && (connected && (x.message.fd.Some? ==> fd in descriptors) ==> r == 0)
      && x.passed == if r == 0 && x.message.fd.Some? && fd in descriptors then Some(descriptors[fd]) else None
    }

    /**
     `unix_socket_process_request`.  One reply whatever the request and however `open`
     goes, sent while the descriptor is open; that is closed once and none is left behind.
     */
    method ProcessRequest(request: seq<byte>) returns (ghost calls: seq<OpenCall>)
      modifies this`descriptors, this`opens, this`closes, this`sent
      ensures opens == old(opens) + calls && CallsFor(Requests.Parse(request), calls)
      ensures Requests.IsInt(Answer(Requests.Parse(request), calls).code)
      ensures unixDomain ==> |sent| == |old(sent)| + 1 && sent[..|old(sent)|] == old(sent)
      ensures unixDomain ==> Replied(sent[|old(sent)|], Answer(Requests.Parse(request), calls), calls)
      ensures !unixDomain ==> sent == old(sent)
      ensures descriptors == old(descriptors)
      ensures closes == old(closes) + if Target(calls) >= 0 then [Target(calls)] else []
    {
      var (op, rest) := Requests.ExtractInt(request);
      if op.None? {
        calls := [];
        Refuse(Ascii("Empty request or invalid opcode format"));
      } else {
        calls := Serve(op.value, rest, Requests.Parse(request));
      }
    }

    /** From the switch on the opcode on. */
    method Serve(op: int, rest: seq<byte>, ghost req: Requests.Request) returns (ghost calls: seq<OpenCall>)
      requires req == if op == Requests.OPEN then Requests.ParseArguments(rest) else Requests.Unknown(op)
      modifies this`descriptors, this`opens, this`closes, this`sent
      ensures opens == old(opens) + calls && CallsFor(req, calls) && Requests.IsInt(Answer(req, calls).code)
      ensures unixDomain ==> |sent| == |old(sent)| + 1 && sent[..|old(sent)|] == old(sent)
      ensures unixDomain ==> Replied(sent[|old(sent)|], Answer(req, calls), calls)
      ensures !unixDomain ==> sent == old(sent)
      ensures descriptors == old(descriptors)
      ensures closes == old(closes) + if Target(calls) >= 0 then [Target(calls)] else []
    {
      var target: int, status: Status;
      target, status, calls := Dispatch(op, rest, req);
      Finish(target, status, calls);
    }

    /** A message and no descriptor. */
    method Refuse(msg: seq<byte>)
      requires msg != []
      modifies this`sent
      ensures !unixDomain ==> sent == old(sent)
      ensures unixDomain ==> |sent| == |old(sent)| + 1 && sent[..|old(sent)|] == old(sent)
      ensures unixDomain ==> Replied(sent[|old(sent)|], Status(0, msg), [])
    {
      var _ := SendFd(-1, Some(Status(0, msg)));
    }

    /** The switch on the opcode. */
    method Dispatch(op: int, rest: seq<byte>, ghost req: Requests.Request) returns (target: int, status: Status, ghost calls: seq<OpenCall>)
      requires req == if op == Requests.OPEN then Requests.ParseArguments(rest) else Requests.Unknown(op)
      modifies this`descriptors, this`opens
      ensures opens == old(opens) + calls && CallsFor(req, calls)
      ensures status == Answer(req, calls) && Requests.IsInt(status.code)
      ensures target == if Target(calls) >= 0 then Target(calls) else -1
      ensures target >= 0 ==> !status.HasError() && target !in old(descriptors) && descriptors == old(descriptors)[target := calls[0].file]
      ensures target < 0 ==> status.HasError() && descriptors == old(descriptors)
    {
      if op == Requests.OPEN {
        target, status, calls := OpenTarget(rest);
      } else {
        target, calls := -1, [];
        status := Status(0, Ascii("Unknown command opcode: ") + Requests.IntText(op));
      }
    }

    /** The reply carries the answer, and if it got through, the file that was opened. */
    ghost predicate Replied(x: Sent, status: Status, calls: seq<OpenCall>)
      requires Requests.IsInt(status.code)
    {
      && Carries(x.message, Target(calls), status)
      && -1 <= x.result <= 0 && (connected ==> x.result == 0)
      && x.passed == if x.result == 0 && x.message.fd.Some? && calls != [] then Some(calls[|calls| - 1].file) else None
    }

    /** The OPEN case of `unix_socket_process_request`. */
    method OpenTarget(arguments: seq<byte>) returns (target: int, status: Status, ghost calls: seq<OpenCall>)
      modifies this`descriptors, this`opens
      ensures var req := Requests.ParseArguments(arguments);
              && opens == old(opens) + calls && CallsFor(req, calls)
              && status == Answer(req, calls) && Requests.IsInt(status.code)
      ensures target == if Target(calls) >= 0 then Target(calls) else -1
      ensures target >= 0 ==> !status.HasError() && target !in old(descriptors) && descriptors == old(descriptors)[target := calls[0].file]
      ensures target < 0 ==> status.HasError() && descriptors == old(descriptors)
    {
      target, status, calls := -1, Status(0, []), [];
      var (path, rest) := Requests.ExtractWord(arguments);
      var (mode, _) := Requests.ExtractInt(rest);
      if path.Some? && mode.Some? {
        var errno: int;
        ghost var call: OpenCall;
        target, errno, call := Open(CString(path.value), mode.value);
        calls := [call];
        if target < 0 {
          target, status := -1, status.(code := errno);
        }
      } else {
        status := status.(msg := Ascii("Invalid arguments for OPEN (expected: path mode)"));
      }
    }

    /** The end of `unix_socket_process_request`: the reply, then the descriptor is closed. */
    method Finish(target: int, status: Status, ghost calls: seq<OpenCall>)
      requires Requests.IsInt(status.code)
      requires target == if Target(calls) >= 0 then Target(calls) else -1
      requires target < 0 <==> status.HasError()
      requires target >= 0 ==> target in descriptors && descriptors[target] == calls[|calls| - 1].file
      modifies this`descriptors, this`closes, this`sent
      ensures !unixDomain ==> sent == old(sent)
      ensures unixDomain ==> |sent| == |old(sent)| + 1 && sent[..|old(sent)|] == old(sent)
      ensures unixDomain ==> Replied(sent[|old(sent)|], status, calls)
      ensures descriptors == old(descriptors) - (if target >= 0 then {target} else {})
      ensures closes == old(closes) + if target >= 0 then [target] else []
    {
      if status.HasError() {
        var _ := SendFd(-1, Some(status));
      } else {
        var _ := SendFd(target, None);
      }
      if target >= 0 {
        Close(target);
      }
    }
  }

  /** What a reply says: the error number of `open`, a message if it was not called, and the descriptor it returned. */
  lemma ReplySays(req: Requests.Request, calls: seq<OpenCall>, m: Message)
    requires CallsFor(req, calls) && Requests.IsInt(Answer(req, calls).code) && Carries(m, Target(calls), Answer(req, calls))
    ensures |m.bytes| >= HEADER
    ensures HeaderCode(m.bytes[..HEADER]) == if calls == [] then 0 else calls[0].errno
    ensures m.bytes[HEADER..] == [] <==> req.Open?
    ensures m.fd == if req.Open? && calls[0].fd >= 0 then Some(calls[0].fd) else None
  {
    AnswerShape(req, calls);
    ErrorSurvives(m, Target(calls), Answer(req, calls));
  }

  lemma AnswerShape(req: Requests.Request, calls: seq<OpenCall>)
    requires CallsFor(req, calls)
    ensures Answer(req, calls).code == (if calls == [] then 0 else calls[0].errno)
    ensures Answer(req, calls).msg == [] <==> req.Open?
  {
  }

  // ----- the client -----

  /** A control message that came with the header; descriptor numbers are the client's own. */
  datatype Control = Rights(fd: int) | Credentials(uid: nat)

  /** `fd` is the descriptor in the last rights message, or -1 if there is none. */
  ghost predicate LastRights(ctrl: seq<Control>, fd: int) {
    || (exists i :: 0 <= i < |ctrl| && ctrl[i] == Rights(fd) && forall j :: i < j < |ctrl| ==> !ctrl[j].Rights?)
    || (fd == -1 && forall i :: 0 <= i < |ctrl| ==> !ctrl[i].Rights?)
  }

  ghost predicate LastCredentials(ctrl: seq<Control>, uid: Option<nat>) {
    match uid
    case Some(u) => exists i :: 0 <= i < |ctrl| && ctrl[i] == Credentials(u) && forall j :: i < j < |ctrl| ==> !ctrl[j].Credentials?
    case None => forall i :: 0 <= i < |ctrl| ==> !ctrl[i].Credentials?
  }

  /** What the client returns for a header that arrived whole. */
  ghost predicate ClientReturns(h: seq<byte>, ctrl: seq<Control>, fd: int)
    requires |h| == HEADER
  {
    if HeaderCode(h) == 0 && HeaderLength(h) == 0 then LastRights(ctrl, fd) else fd == -1
  }

  /**
   `unix_socket_recv_fd`.  On a socket of another domain nothing is read.  Otherwise one
   `recvmsg` gets the header, or part of it; the body is read by `readn`, and however
   that goes, a body that was announced is an error.
   */
  method RecvFd(sock: OpenFile, unixDomain: bool, ctrl: seq<Control>)
      returns (fd: int, uid: Option<nat>, ghost header: seq<byte>)
    modifies sock`pos, sock`results, sock`readLog
    ensures !unixDomain ==> fd == -1 && uid == None && sock.results == old(sock.results) && sock.pos == old(sock.pos)
    ensures unixDomain ==> |sock.results| > |old(sock.results)| && |header| == Max0(sock.results[|old(sock.results)|]) <= HEADER
    ensures unixDomain ==> header == Bytes(sock.content, old(sock.pos), |header|)
    ensures unixDomain && sock.reliable && sock.whole ==> header == Bytes(sock.content, old(sock.pos), HEADER)
    ensures unixDomain && |header| == HEADER ==> ClientReturns(header, ctrl, fd)
    ensures unixDomain && |header| < HEADER ==> fd == -1
    ensures unixDomain && |header| == HEADER && HeaderCode(header) == 0 && HeaderLength(header) == 0 ==> LastCredentials(ctrl, uid)
  {
    if !unixDomain {
      return -1, None, [];
    }
    uid := None;
    var n, data := sock.Read(HEADER);
    header := data;
    if n < HEADER {
      return -1, None, header;
    }
    var len := HeaderLength(data);
    var remote: seq<byte> := [];
    if len > 0 {
      if len > MAX_ERR_MSG {
        return -1, None, header;
      }
      var buf := new byte[len](_ => 0);
      var res, _ := ReadN(sock, buf, len);
      if res.None? {
        return -1, None, header;
      }
      remote := buf[..];
    }
    var status := Status(HeaderCode(data), remote);
    if status.HasError() {
      return -1, None, header;
    }
    fd, uid := LastOf(ctrl);
  }

  /** The loop of lines 193-203. */
  method LastOf(ctrl: seq<Control>) returns (fd: int, uid: Option<nat>)
    ensures LastRights(ctrl, fd) && LastCredentials(ctrl, uid)
  {
    fd, uid := -1, None;
    for i := 0 to |ctrl|
      invariant LastRights(ctrl[..i], fd) && LastCredentials(ctrl[..i], uid)
    {
      LastAppend(ctrl[..i], fd, uid, ctrl[i]);
      assert ctrl[..i + 1] == ctrl[..i] + [ctrl[i]];
      match ctrl[i]
      case Rights(f) => fd := f;
      case Credentials(u) => uid := Some(u);
    }
    assert ctrl[..|ctrl|] == ctrl;
  }

  lemma LastAppend(ctrl: seq<Control>, fd: int, uid: Option<nat>, c: Control)
    requires LastRights(ctrl, fd) && LastCredentials(ctrl, uid)
    ensures LastRights(ctrl + [c], if c.Rights? then c.fd else fd)
    ensures LastCredentials(ctrl + [c], if c.Credentials? then Some(c.uid) else uid)
  {
    var all := ctrl + [c];
    assert all[|ctrl|] == c;
    if i :| 0 <= i < |ctrl| && ctrl[i] == Rights(fd) && forall j :: i < j < |ctrl| ==> !ctrl[j].Rights? {
      assert all[i] == Rights(fd);
    }
    if uid.Some? {
      var i :| 0 <= i < |ctrl| && ctrl[i] == Credentials(uid.value) && forall j :: i < j < |ctrl| ==> !ctrl[j].Credentials?;
      assert all[i] == Credentials(uid.value);
    }
  }

  // ----- both ends -----

  /** Cutting the message to 1024 bytes keeps whether there is an error. */
  lemma ErrorSurvives(m: Message, fd: int, status: Status)
    requires Requests.IsInt(status.code) && Carries(m, fd, status)
    ensures |m.bytes| >= HEADER
    ensures var h := m.bytes[..HEADER];
            && HeaderCode(h) == status.code && HeaderLength(h) == |Clipped(status.msg)| <= MAX_ERR_MSG
            && m.bytes[HEADER..] == Clipped(status.msg)
            && (status.HasError() <==> Status(HeaderCode(h), m.bytes[HEADER..]).HasError())
  {
    var padding :| Frames(m.bytes, padding, status);
    var text := Clipped(status.msg);
    HeaderBack(status.code, padding, |text|);
    var h := Header(status.code, padding, |text|);
    assert m.bytes == h + text && m.bytes[..HEADER] == h && m.bytes[HEADER..] == text;
  }

  /** The control messages have one number for what was passed on, and none otherwise. */
  ghost predicate Delivered(passed: Option<nat>, ctrl: seq<Control>, number: nat) {
    && (forall i :: 0 <= i < |ctrl| && ctrl[i].Rights? ==> ctrl[i].fd == number)
    && ((exists i :: 0 <= i < |ctrl| && ctrl[i].Rights?) <==> passed.Some?)
  }

  /** The client returns the number it was given exactly if a descriptor was passed on with no error. */
  lemma ClientGetsDescriptorIff(m: Message, fd: int, status: Status, passed: Option<nat>, ctrl: seq<Control>, number: nat, r: int)
    requires Requests.IsInt(status.code) && Carries(m, fd, status) && (passed.Some? <==> m.fd.Some?)
    requires Delivered(passed, ctrl, number) && |m.bytes| >= HEADER && ClientReturns(m.bytes[..HEADER], ctrl, r)
    ensures r == if fd >= 0 && !status.HasError() then number else -1
  {
    ErrorSurvives(m, fd, status);
  }

  /** The client's process: its own descriptors, by the open file each stands for. */
  class Client {
    var descriptors: map<int, nat>

    /** The kernel installs what was passed on under a number that is free, and may add credentials around it. */
    method Deliver(passed: Option<nat>) returns (ctrl: seq<Control>, number: nat)
      modifies this
      ensures Delivered(passed, ctrl, number)
      ensures passed.None? ==> descriptors == old(descriptors)
      ensures passed.Some? ==> number !in old(descriptors) && descriptors == old(descriptors)[number := passed.value]
    {
      number := FreeNumber();
      var uid: nat, before: bool, after: bool := *, *, *;
      var first := if before then [Credentials(uid)] else [];
      var last := if after then [Credentials(uid)] else [];
      ctrl := first + (if passed.Some? then [Rights(number)] else []) + last;
      assert passed.Some? ==> ctrl[|first|].Rights?;
      if passed.Some? {
        descriptors := descriptors[number := passed.value];
      }
    }

    method FreeNumber() returns (number: nat)
      ensures number !in descriptors
    {
      number := *;
      ghost var above := descriptors.Keys;
      while number in descriptors
        invariant forall k :: k in descriptors.Keys && k >= number ==> k in above
        decreases above
      {
        above := above - {number};
        number := number + 1;
      }
    }

    /** Delivery of a reply, and `unix_socket_recv_fd`: the number returned stands for the file passed on. */
    method Take(m: Message, passed: Option<nat>, whole: bool, ghost sentFd: int, ghost status: Status) returns (fd: int)
      requires Requests.IsInt(status.code) && Carries(m, sentFd, status) && (passed.Some? <==> m.fd.Some?)
      modifies this
      ensures fd >= 0 ==> passed.Some? && fd !in old(descriptors) && descriptors == old(descriptors)[fd := passed.value]
      ensures whole ==> (fd >= 0 <==> passed.Some?)
      ensures passed.None? ==> descriptors == old(descriptors)
    {
      var ctrl, number := Deliver(passed);
      ErrorSurvives(m, sentFd, status);
      var sock := new OpenFile(m.bytes, true, whole, null);
      var uid: Option<nat>;
      ghost var header: seq<byte>;
      fd, uid, header := RecvFd(sock, true, ctrl);
      assert Bytes(m.bytes, 0, HEADER) == m.bytes[..HEADER];
      if |header| == HEADER {
        ClientGetsDescriptorIff(m, sentFd, status, passed, ctrl, number, fd);
      }
    }

    /** A reply that was not sent, or went nowhere: the client finds nothing to read. */
    method TakeNothing(unixDomain: bool) returns (fd: int)
      ensures fd == -1
    {
      var sock := new OpenFile([], true, true, null);
      var uid: Option<nat>;
      ghost var header: seq<byte>;
      fd, uid, header := RecvFd(sock, unixDomain, []);
    }
  }

  /**
   A whole exchange: the client prints a request, the server serves what it read of it,
   the reply is delivered and the client takes it.  What the client gets is a new
   descriptor for the very file the server opened.  With a connected socket whose reads
   return all there is, it gets one exactly if `open` succeeded; in any case it never gets
   one from an `open` that failed.
   */
  method Exchange(server: Server, client: Client, path: seq<byte>, mode: int, whole: bool)
      returns (fd: int, ghost calls: seq<OpenCall>)
    requires Requests.IsInt(mode)
    modifies server`descriptors, server`opens, server`closes, server`sent, client
    ensures server.opens == old(server.opens) + calls && |calls| <= 1
    ensures fd >= 0 ==>
              && server.unixDomain && Target(calls) >= 0 && fd !in old(client.descriptors)
              && client.descriptors == old(client.descriptors)[fd := calls[0].file]
    ensures server.unixDomain && server.connected && whole ==> (fd >= 0 <==> Target(calls) >= 0)
    ensures Target(calls) < 0 ==> client.descriptors == old(client.descriptors)
    ensures |server.sent| == |old(server.sent)| + if server.unixDomain then 1 else 0
    ensures server.descriptors == old(server.descriptors)
    ensures server.closes == old(server.closes) + if Target(calls) >= 0 then [Target(calls)] else []
    ensures path != [] && Requests.NoSpace(path) && |Requests.Printed(Requests.OPEN, path, mode)| <= Requests.MAX_REQUEST ==>
              |calls| == 1 && calls[0].path == CString(path) && (0 !in path ==> calls[0].path == path) && calls[0].flags == mode
  {
    var request := Requests.Received(Requests.Printed(Requests.OPEN, path, mode));
    Requests.RoundTripIff(path, mode);
    calls := server.ProcessRequest(request);
    if !server.unixDomain {
      fd := client.TakeNothing(false);
      return;
    }
    fd := Collect(server, client, server.sent[|server.sent| - 1], whole, Requests.Parse(request), calls);
  }

  /** The client's side of an exchange, whatever became of the reply. */
  method Collect(server: Server, client: Client, reply: Sent, whole: bool, ghost req: Requests.Request, ghost calls: seq<OpenCall>)
      returns (fd: int)
    requires CallsFor(req, calls) && Requests.IsInt(Answer(req, calls).code)
    requires server.Replied(reply, Answer(req, calls), calls)
    modifies client
    ensures fd >= 0 ==>
              && Target(calls) >= 0 && fd !in old(client.descriptors)
              && client.descriptors == old(client.descriptors)[fd := calls[0].file]
    ensures server.connected && whole ==> (fd >= 0 <==> Target(calls) >= 0)
    ensures Target(calls) < 0 ==> client.descriptors == old(client.descriptors)
  {
    OpenedIff(req, calls);
    if reply.result < 0 {
      fd := client.TakeNothing(true);
    } else {
      fd := client.Take(reply.message, reply.passed, whole, Target(calls), Answer(req, calls));
    }
  }

  /** The reply carries no error exactly if the request led to a descriptor. */
  lemma OpenedIff(req: Requests.Request, calls: seq<OpenCall>)
    requires CallsFor(req, calls)
    ensures Target(calls) >= 0 <==> !Answer(req, calls).HasError()
  {
  }
}

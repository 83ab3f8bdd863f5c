/** Flakkari/Server/Client/Client: what the server keeps for each address, as the object it is. Times are milliseconds
    of a steady clock. */
module Clients {
  import opened Bytes
  import opened Sequences
  import opened Packets
  import opened GameModel
  import ClientApi

  datatype Address = Address(ip: text, port: u16)

  const TIMEOUT := 5
  const MAX_WARNING_COUNT := 5
  const MAX_PACKET_HISTORY := 10

  /** duration_cast to seconds truncates toward zero. */
  function Seconds(milliseconds: int): int {
    if milliseconds >= 0 then milliseconds / 1000 else -(-milliseconds / 1000)
  }

  /** Connected means strictly less than five whole seconds of silence: 5000 milliseconds. */
  lemma SilenceInMilliseconds(lastActivity: int, now: int)
    ensures Seconds(now - lastActivity) < TIMEOUT <==> now < lastActivity + 5000
  {
  }

  /** The history after one more packet: the last ten. */
  function Remembered(history: seq<seq<byte>>, packet: seq<byte>): seq<seq<byte>> {
    (if |history| >= MAX_PACKET_HISTORY then history[1..] else history) + [packet]
  }

  function RememberedAll(history: seq<seq<byte>>, packets: seq<seq<byte>>): seq<seq<byte>>
    decreases |packets|
  {
    if packets == [] then history else RememberedAll(Remembered(history, packets[0]), packets[1..])
  }

  function Latest(s: seq<seq<byte>>): seq<seq<byte>> {
    if |s| <= 10 then s else s[|s| - 10..]
  }

  /** Over any run the history is the latest ten packets, oldest first. */
  lemma {:induction false} HistoryIsLatest(past: seq<seq<byte>>, packets: seq<seq<byte>>)
    ensures RememberedAll(Latest(past), packets) == Latest(past + packets)
    decreases |packets|
  {
    if packets == [] {
      Empty(past);
    } else {
      assert Remembered(Latest(past), packets[0]) == Latest(past + [packets[0]]);
      HistoryIsLatest(past + [packets[0]], packets[1..]);
      HeadAndTail(packets);
      Associative(past, [packets[0]], packets[1..]);
    }
  }

  class Client {
    const address: Address
    const gameName: text
    var lastActivity: int
    var entity: nat
    var sceneName: text
    var apiVersion: nibble
    var warningCount: u16
    var packetHistory: seq<seq<byte>>
    var sendQueue: seq<Frame>
    var receiveQueue: seq<Frame>
    ghost var sent: seq<Frame>
    ghost var datagrams: seq<seq<byte>>
    ghost var joined: nat

    constructor (address: Address, gameName: text, apiVersion: nibble, now: int)
      ensures this.address == address && this.gameName == gameName && lastActivity == now && warningCount == 0
      ensures packetHistory == [] && Record() == Peer(0, [], apiVersion, [], [], [], [], 0)
    {
      this.address, this.gameName, this.apiVersion, lastActivity := address, gameName, apiVersion, now;
      entity, sceneName, warningCount, packetHistory := 0, [], 0, [];
      sendQueue, receiveQueue, sent, datagrams, joined := [], [], [], [], 0;
    }

    /** The part a game works on, with its past. */
    ghost function Record(): Peer
      reads this
    {
      Peer(entity, sceneName, apiVersion, sendQueue, receiveQueue, sent, datagrams, joined)
    }

    lemma RecordFields()
      ensures Record().entity == entity && Record().scene == sceneName && Record().api == apiVersion
      ensures Record().queue == sendQueue && Record().inbox == receiveQueue
    {
    }

    method SetSceneName(name: text)
      modifies this`sceneName
      ensures Record() == old(Record()).(scene := name)
    {
      sceneName := name;
    }

    predicate IsConnected(now: int)
      reads this`lastActivity
    {
      Seconds(now - lastActivity) < TIMEOUT
    }

    method KeepAlive(now: int)
      modifies this`lastActivity
      ensures lastActivity == now && IsConnected(now)
    {
      lastActivity := now;
    }

    method AddPacketToHistory(packet: seq<byte>)
      modifies this`packetHistory
      ensures packetHistory == Remembered(old(packetHistory), packet)
    {
      if |packetHistory| >= MAX_PACKET_HISTORY {
        packetHistory := packetHistory[1..];
      }
      packetHistory := packetHistory + [packet];
    }

    /** The count is an unsigned short. */
    method IncrementWarningCount() returns (tooMany: bool)
      modifies this`warningCount
      ensures warningCount == (old(warningCount) + 1) % 0x1_0000
      ensures tooMany <==> warningCount >= MAX_WARNING_COUNT
    {
      warningCount := (warningCount + 1) % 0x1_0000;
      tooMany := warningCount >= MAX_WARNING_COUNT;
    }

    method AddPacketToReceiveQueue(packet: Frame)
      modifies this`apiVersion, this`receiveQueue
      ensures Record() == Accept(old(Record()), packet)
    {
      apiVersion := packet.header.api;
      receiveQueue := receiveQueue + [packet];
    }

    method AddPacketToSendQueue(packet: Frame)
      modifies this`apiVersion, this`sendQueue
      ensures Record() == Deliver(old(Record()), packet)
    {
      apiVersion := packet.header.api;
      sendQueue := sendQueue + [packet];
    }

    /** getReceiveQueue().pop_front() */
    method PopReceived() returns (packet: Frame)
      requires receiveQueue != []
      modifies this`receiveQueue
      ensures packet == old(receiveQueue)[0]
      ensures Record() == old(Record()).(inbox := old(receiveQueue)[1..]) && receiveQueue == old(receiveQueue)[1..]
    {
      packet := receiveQueue[0];
      receiveQueue := receiveQueue[1..];
    }

    /** What updateOutcomingPackets does for one connected player: up to twenty packets leave in one datagram. */
    method Flush() returns (datagram: seq<byte>)
      modifies this`sendQueue, this`sent, this`datagrams
      ensures Record() == Flushed(old(Record()))
      ensures datagram == ClientApi.Joined(NextBatch(old(Record())))
      ensures datagram == [] <==> old(sendQueue) == []
    {
      hide ClientApi.Joined, Serialized;
      var messageCount := MAX_MESSAGES;
      datagram := [];
      JoinedNone();
      assert sendQueue[..0] == [];
      ghost var n := 0;
      while sendQueue != [] && messageCount > 0
        invariant 0 <= messageCount <= MAX_MESSAGES && n == MAX_MESSAGES - messageCount
        invariant n <= |old(sendQueue)| && sendQueue == old(sendQueue)[n..]
        invariant datagram == ClientApi.Joined(old(sendQueue)[..n]) && |datagram| >= HEADER_SIZE * n
        invariant sent == old(sent) && datagrams == old(datagrams)
        decreases messageCount
      {
        var packet := sendQueue[0];
        sendQueue := sendQueue[1..];
        messageCount := messageCount - 1;
        JoinedOneMore(old(sendQueue)[..n], packet);
        assert old(sendQueue)[..n + 1] == old(sendQueue)[..n] + [packet];
        datagram := datagram + Serialized(packet);
        n := n + 1;
      }
      sent := sent + old(sendQueue)[..n];
      if |datagram| > 0 {
        datagrams := datagrams + [datagram];
      }
      Empty(old(sent));
    }
  }

  lemma JoinedNone()
    ensures ClientApi.Joined([]) == []
  {
  }

  lemma JoinedOneMore(ps: seq<Frame>, p: Frame)
    ensures ClientApi.Joined(ps + [p]) == ClientApi.Joined(ps) + Serialized(p)
  {
    ClientApi.JoinedAppend(ps, [p]);
    assert [p][1..] == [];
    Empty(Serialized(p));
  }
}

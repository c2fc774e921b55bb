/** The routing table that the engine installs at start-up (engine/init.c). */
module RoutingConfig {
  import opened PacketSwitch
  import opened PacketRuns

  const KNI_KTHREAD: nat := 5

  /** RTE_IPV4: every octet is cut to eight bits. */
  function Ipv4(a: nat, b: nat, c: nat, d: nat): nat {
    (a % 0x100) * 0x1000000 + (b % 0x100) * 0x10000 + (c % 0x100) * 0x100 + d % 0x100
  }

  /** The address of port i, 192.167.10.(i + 1). */
  function PortIp(i: nat): nat {
    Ipv4(192, 167, 10, i + 1)
  }

  lemma LowHalf(high: nat, low: nat)
    requires low < 0x10000
    ensures (high * 0x10000 + low) % 0x10000 == low
  {
  }

  lemma PortIpLow(i: nat)
    requires i < KNI_KTHREAD
    ensures PortIp(i) % 0x10000 == 0x0A01 + i
  {
    LowHalf(192 * 0x100 + 167, 0x0A01 + i);
  }

  datatype KniConfig = KniConfig(id: nat, ip: nat, coreId: nat)

  /** The low half of an address belongs to a port. */
  predicate Configured(low: nat) {
    exists i :: 0 <= i < KNI_KTHREAD && PortIp(i) % 0x10000 == low
  }

  /** What the table maps the low half of a destination to, once `done` ports are entered. */
  function Entry(low: nat, done: nat): nat {
    if 0x0A01 <= low < 0x0A01 + done then low - 0x0A01
    else if low < KNI_KTHREAD then UNKNOWN_PORT
    else 0
  }

  ghost predicate Installed(table: seq<nat>) {
    |table| == TABLE_SIZE && forall low :: 0 <= low < TABLE_SIZE ==> table[low] == Entry(low, KNI_KTHREAD)
  }

  /** read_config, without the creation of the rings. The table has static storage, so it starts out zero. */
  method ReadConfig(table: array<nat>) returns (active: nat)
    requires table.Length == TABLE_SIZE && forall j :: 0 <= j < TABLE_SIZE ==> table[j] == 0
    modifies table
    ensures active == KNI_KTHREAD
    ensures Installed(table[..])
  {
    for i := 0 to KNI_KTHREAD
      invariant forall j :: 0 <= j < TABLE_SIZE ==> table[j] == if j < i then UNKNOWN_PORT else 0
    {
      table[i] := UNKNOWN_PORT;
    }
    var ports := new KniConfig[KNI_KTHREAD];
    for i := 0 to KNI_KTHREAD
      invariant forall low :: 0 <= low < TABLE_SIZE ==> table[low] == Entry(low, 0)
      invariant forall j :: 0 <= j < i ==> ports[j] == KniConfig(j, PortIp(j), j)
    {
      ports[i] := KniConfig(i, Ipv4(192, 167, 10, i + 1), i);
    }
    active := KNI_KTHREAD;
    for i := 0 to active
      invariant forall j :: 0 <= j < KNI_KTHREAD ==> ports[j] == KniConfig(j, PortIp(j), j)
      invariant forall low :: 0 <= low < TABLE_SIZE ==> table[low] == Entry(low, i)
    {
      PortIpLow(i);
      table[ports[i].ip % 0x10000] := ports[i].id;
    }
  }

  lemma ConfiguredRange(low: nat)
    ensures Configured(low) <==> 0x0A01 <= low < 0x0A01 + KNI_KTHREAD
  {
    forall i | 0 <= i < KNI_KTHREAD
      ensures PortIp(i) % 0x10000 == 0x0A01 + i
    {
      PortIpLow(i);
    }
    if 0x0A01 <= low < 0x0A01 + KNI_KTHREAD {
      assert PortIp(low - 0x0A01) % 0x10000 == low;
    }
  }

  /** A packet for the address of a port is routed to that port. */
  lemma RoutesToOwner(table: seq<nat>, frame: Frame, i: nat)
    requires Installed(table) && i < KNI_KTHREAD
    requires frame.etherType == ETHER_TYPE_IPV4 && frame.ipDst % 0x10000 == PortIp(i) % 0x10000
    ensures NextHop(table, frame) == i
  {
    PortIpLow(i);
  }

  /**
    The default of the table is meant to drop every other destination. The first loop of read_config covers
    only KNI_KTHREAD of its entries, so exactly those are dropped, and every other address goes to port 0.
   */
  lemma UnconfiguredIsDroppedIff(table: seq<nat>, frame: Frame)
    requires Installed(table) && frame.etherType == ETHER_TYPE_IPV4 && !Configured(frame.ipDst % 0x10000)
    ensures NextHop(table, frame) == UNKNOWN_PORT <==> frame.ipDst % 0x10000 < KNI_KTHREAD
    ensures NextHop(table, frame) != UNKNOWN_PORT ==> NextHop(table, frame) == 0
  {
    ConfiguredRange(frame.ipDst % 0x10000);
  }

  /**
    The whole of get_next_hop with this table: frames that are not IPv4 have no egress port, addresses that
    end in 10.1 to 10.5 go to ports 0 to 4, those that end in 0.0 to 0.4 nowhere, and all others to port 0.
   */
  lemma InstalledRouting(table: seq<nat>, etherType: nat, a: nat, b: nat, c: nat, d: nat)
    requires Installed(table) && a < 256 && b < 256 && c < 256 && d < 256
    ensures NextHop(table, Frame(etherType, Ipv4(a, b, c, d))) ==
            if etherType != 0x0800 then 0xFFFF
            else if c == 10 && 1 <= d <= 5 then d - 1
            else if c == 0 && d <= 4 then 0xFFFF
            else 0
  {
    LowHalf(a * 0x100 + b, c * 0x100 + d);
    assert Ipv4(a, b, c, d) == (a * 0x100 + b) * 0x10000 + (c * 0x100 + d);
  }

  /** 10.0.0.9 belongs to no port and is sent to port 0. */
  lemma UnconfiguredMayBeForwarded(table: seq<nat>)
    requires Installed(table)
    ensures var destination := Ipv4(10, 0, 0, 9);
            && !Configured(destination % 0x10000)
            && NextHop(table, Frame(ETHER_TYPE_IPV4, destination)) == 0
  {
    assert Ipv4(10, 0, 0, 9) == 0x0A000009;
    ConfiguredRange(9);
  }

  /** With this table no run of the engine loses track of a packet. */
  lemma InstalledLeaksNothing(s: State, actions: seq<Action>)
    requires Initial(s) && Behaviour(s, actions)
    requires s.cfg.ports == KNI_KTHREAD && Installed(s.cfg.table)
    ensures Run(s, actions).leaked == []
  {
    forall j | 0 <= j < |s.cfg.table|
      ensures s.cfg.table[j] < s.cfg.ports || s.cfg.table[j] == UNKNOWN_PORT
    {
      assert s.cfg.table[j] == Entry(j, KNI_KTHREAD);
    }
    ClosedTableLeaksNothing(s, actions);
  }
}

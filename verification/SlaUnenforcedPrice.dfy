/**
 The prices of config_deploy.yaml: at price 1 and a payment tolerance of 95% the
 minimum payment rounds down to 0, and a forwarder keeps accepting packets for a
 home provider that never counts any and never pays.
 */
module SlaUnenforcedPrice {
  import opened SlaContract
  import opened SlaHistory
  import opened SlaGuarantees
  import opened SlaRuns

  const CATALOGUE: AppId := 1
  const VODAFONE: AppId := 2
  const TIM: AppId := 3
  const V := User("vodafone")
  const T := User("tim")

  function Deployment(): World {
    World(CATALOGUE,
          map[V := EndpointItem("00000001", "Vodafone", VODAFONE), T := EndpointItem("00000002", "Tim", TIM)],
          map[VODAFONE := V, TIM := T], map[], map[], map[])
  }

  const VODAFONE_SETTINGS := Globals(CATALOGUE, 1, 500000000, 80, 95, "VODAFONE_TOKEN", "GW_VODAFONE_001")
  const TIM_SETTINGS := Globals(CATALOGUE, 2, 300000000, 75, 95, "localhost:1884", "0000000000000002")

  const CHECK := SlaCheck(V, VODAFONE, "00000002", V, CATALOGUE, "Tim", TIM)

  function Settings(): map<AppId, Globals> {
    map[VODAFONE := VODAFONE_SETTINGS, TIM := TIM_SETTINGS]
  }

  const SETUP := [Init(V, VODAFONE, VODAFONE_SETTINGS), Init(T, TIM, TIM_SETTINGS), CHECK]

  /** The state after the handshake. */
  function Opened(): Monitor {
    var kf, kh := ForwardBox(VODAFONE, "00000002"), HomeBox(TIM, "00000001");
    var ef := SlaEntry("00000002", "Tim", ActiveSla, 1, 500000000, 0, "localhost:1884", "0000000000000002");
    Monitor(Deployment().(globals := Settings(), boxes := map[kf := ef, kh := ef.(netId := "00000001", name := "Vodafone")]),
            map[kf := ForwardHistory(2, 0, 0, 0, 0, 0), kh := HomeHistory(2, 0, 0, 0, 0)], 3)
  }

  lemma Handshaken()
    ensures Run(Start(Deployment()), SETUP) == Opened()
  {
    var m0 := Start(Deployment());
    var m1 := Observe(m0, Init(V, VODAFONE, VODAFONE_SETTINGS));
    var m2 := Observe(m1, Init(T, TIM, TIM_SETTINGS));
    assert m2.world.globals == Settings();
    BoxNamesAreInjective("00000002", "00000001");
    var m3 := Observe(m2, CHECK);
    assert m3.world.boxes == Opened().world.boxes;
    assert m3.history == Opened().history;
    assert SETUP[1..] == [Init(T, TIM, TIM_SETTINGS), CHECK];
    assert SETUP[1..][1..] == [CHECK];
    assert Run(m2, [CHECK]) == Run(m3, []);
  }

  lemma DeploymentIsFresh()
    ensures Fresh(Deployment()) && AllWellFormed(Deployment().catalogue, SETUP)
  {
    assert IsRow(Deployment().catalogue, T, "00000002", TIM);
  }

  lemma OpenedIsReachable()
    ensures Inv(Opened())
  {
    DeploymentIsFresh();
    ReachableInv(Deployment(), SETUP);
    Handshaken();
  }

  lemma TimDeclines()
    ensures HomeDeclines(Opened().world, CHECK)
  {
    BoxNamesAreInjective("00000002", "00000001");
    assert MinPackets(500000000, 75) == 375000000;
  }

  lemma OpenedIsWaiving()
    ensures Waiving(Opened(), CHECK)
  {
    OpenedIsReachable();
    TimDeclines();
    BoxNamesAreInjective("00000002", "00000001");
    assert IsRow(Opened().world.catalogue, T, "00000002", TIM);
    assert MinPayment(1, 95) == 0;
  }

  lemma {:induction false} RunOn(m: Monitor, first: seq<Call>, more: seq<Call>)
    ensures Run(m, first + more) == Run(Run(m, first), more)
    decreases |first|
  {
    if first == [] {
      assert first + more == more;
    } else {
      assert (first + more)[1..] == first[1..] + more;
      RunOn(Observe(m, first[0]), first[1..], more);
    }
  }

  /** However many packets are checked after the handshake, every one is accepted, none
      is paid for and the home provider is not banned. */
  lemma NeverPaidNeverBanned(n: nat)
    ensures var m := Run(Start(Deployment()), SETUP + Repeated(CHECK, n));
            var kf := ForwardBox(VODAFONE, "00000002");
            && kf in m.world.boxes && m.world.boxes[kf].state == ActiveSla
            && kf in m.history && m.history[kf].ForwardHistory?
            && m.history[kf].accepts == n && m.history[kf].payments == 0 && m.history[kf].income == 0
  {
    RunOn(Start(Deployment()), SETUP, Repeated(CHECK, n));
    Handshaken();
    OpenedIsWaiving();
    WaivedForever(Opened(), CHECK, n);
    BoxNamesAreInjective("00000002", "00000001");
  }
}

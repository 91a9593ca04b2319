/** The per-network settings of the swap engine (`swap::env`): timeouts, confirmation
    targets, average block times and timelocks for Bitcoin and Monero, and the polling
    interval derived from a chain's average block time. */
module Env {
  import opened Base
  import opened Time
  import Chains

  /** A complete set of settings. The two timelocks are block counts
      (`CancelTimelock` and `PunishTimelock` wrap a `u32`). */
  datatype Config = Config(
    bitcoinLockConfirmedTimeout: Duration,
    bitcoinFinalityConfirmations: u32,
    bitcoinAvgBlockTime: Duration,
    bitcoinCancelTimelock: u32,
    bitcoinPunishTimelock: u32,
    bitcoinNetwork: Chains.BitcoinLibNetwork,
    moneroAvgBlockTime: Duration,
    moneroFinalityConfirmations: u64,
    moneroNetwork: Chains.MoneroLibNetwork)

  /** How often to poll a chain whose blocks arrive every `avgBlockTime` on average:
      a tenth of that, but never more often than once a second. */
  function SyncInterval(avgBlockTime: Duration): (r: Duration)
    ensures r == Max(avgBlockTime / 10, Seconds(1))
  {
    DivTenIsFloor(avgBlockTime);
    Max(DivU32(avgBlockTime, 10), Seconds(1))
  }

  /** The polling interval is a tenth of the block time when the block time is at
      least ten seconds, and exactly one second otherwise. */
  lemma {:induction false} SyncIntervalPiecewise(t: Duration)
    ensures t >= Seconds(10) ==> SyncInterval(t) == t / 10
    ensures t < Seconds(10) ==> SyncInterval(t) == Seconds(1)
    ensures SyncInterval(t) >= Seconds(1)
  {
    assert Seconds(10) == 10 * Seconds(1);
    if t >= Seconds(10) {
      assert t / 10 >= Seconds(1);
    } else {
      assert t / 10 < Seconds(1);
    }
  }

  /** A chain with slower blocks is never polled more often. */
  lemma {:induction false} SyncIntervalMonotone(t: Duration, u: Duration)
    requires t <= u
    ensures SyncInterval(t) <= SyncInterval(u)
  {
    assert t / 10 <= u / 10;
  }

  /** The two cases of the module's own tests: one second stays one second, and
      100 seconds give 10 seconds. */
  lemma SyncIntervalExamples()
    ensures SyncInterval(Seconds(1)) == Seconds(1)
    ensures SyncInterval(Seconds(100)) == Seconds(10)
  {
    SyncIntervalPiecewise(Seconds(1));
    SyncIntervalPiecewise(Seconds(100));
  }

  /** `Config::bitcoin_sync_interval`. */
  function BitcoinSyncInterval(c: Config): (r: Duration)
    ensures r >= Seconds(1)
    ensures c.bitcoinAvgBlockTime >= Seconds(10) ==> r == c.bitcoinAvgBlockTime / 10
    ensures c.bitcoinAvgBlockTime < Seconds(10) ==> r == Seconds(1)
  {
    SyncIntervalPiecewise(c.bitcoinAvgBlockTime);
    SyncInterval(c.bitcoinAvgBlockTime)
  }

  /** `Config::monero_sync_interval`. */
  function MoneroSyncInterval(c: Config): (r: Duration)
    ensures r >= Seconds(1)
    ensures c.moneroAvgBlockTime >= Seconds(10) ==> r == c.moneroAvgBlockTime / 10
    ensures c.moneroAvgBlockTime < Seconds(10) ==> r == Seconds(1)
  {
    SyncIntervalPiecewise(c.moneroAvgBlockTime);
    SyncInterval(c.moneroAvgBlockTime)
  }

  /** Replaces the Bitcoin confirmation target and keeps every other setting. */
  function WithBitcoinFinalityConfirmations(c: Config, n: u32): (r: Config)
    ensures r.bitcoinFinalityConfirmations == n
    ensures r.(bitcoinFinalityConfirmations := c.bitcoinFinalityConfirmations) == c
  {
    c.(bitcoinFinalityConfirmations := n)
  }

  /** Replaces the Monero confirmation target and keeps every other setting. */
  function WithMoneroFinalityConfirmations(c: Config, n: u64): (r: Config)
    ensures r.moneroFinalityConfirmations == n
    ensures r.(moneroFinalityConfirmations := c.moneroFinalityConfirmations) == c
  {
    c.(moneroFinalityConfirmations := n)
  }

  /** The last override wins, the two overrides commute, and neither changes a
      polling interval. */
  lemma OverridesCompose(c: Config, a: u32, b: u32, x: u64, y: u64)
    ensures WithBitcoinFinalityConfirmations(WithBitcoinFinalityConfirmations(c, a), b)
              == WithBitcoinFinalityConfirmations(c, b)
    ensures WithMoneroFinalityConfirmations(WithMoneroFinalityConfirmations(c, x), y)
              == WithMoneroFinalityConfirmations(c, y)
    ensures WithMoneroFinalityConfirmations(WithBitcoinFinalityConfirmations(c, a), x)
              == WithBitcoinFinalityConfirmations(WithMoneroFinalityConfirmations(c, x), a)
    ensures WithBitcoinFinalityConfirmations(c, c.bitcoinFinalityConfirmations) == c
    ensures WithMoneroFinalityConfirmations(c, c.moneroFinalityConfirmations) == c
    ensures BitcoinSyncInterval(WithBitcoinFinalityConfirmations(c, a)) == BitcoinSyncInterval(c)
    ensures MoneroSyncInterval(WithMoneroFinalityConfirmations(c, x)) == MoneroSyncInterval(c)
  {
  }

  /** The three deployments that implement `GetConfig`. */
  datatype Tier = Mainnet | Testnet | Regtest

  /** `GetConfig::get_config` for each deployment. Every deployment waits for at
      least one confirmation on each chain, has positive timelocks with a punish
      timelock no larger than the cancel timelock, and gives the lock transaction
      more than one block time to confirm. */
  function GetConfig(tier: Tier): (c: Config)
    ensures c.bitcoinFinalityConfirmations >= 1
    ensures c.moneroFinalityConfirmations >= 1
    ensures 0 < c.bitcoinPunishTimelock <= c.bitcoinCancelTimelock
    ensures c.bitcoinLockConfirmedTimeout > c.bitcoinAvgBlockTime
  {
    match tier
    case Mainnet =>
      Config(Hours(24), 3, Minutes(10), 72, 72, Chains.Bitcoin,
             Minutes(2), 15, Chains.MoneroLibNetwork.Mainnet)
    case Testnet =>
      Config(Hours(12), 1, Minutes(5), 12, 6, Chains.BitcoinLibNetwork.Testnet,
             Minutes(2), 10, Chains.Stagenet)
    case Regtest =>
      Config(Minutes(1), 1, Seconds(5), 100, 50, Chains.BitcoinLibNetwork.Regtest,
             Seconds(1), 10, Chains.MoneroLibNetwork.Mainnet)
  }

  /** Which chain networks each deployment talks to; regtest pairs a Bitcoin regtest
      node with Monero's mainnet address format. */
  lemma ConfigNetworks()
    ensures GetConfig(Mainnet).bitcoinNetwork == Chains.Bitcoin
    ensures GetConfig(Mainnet).moneroNetwork == Chains.MoneroLibNetwork.Mainnet
    ensures GetConfig(Testnet).bitcoinNetwork == Chains.BitcoinLibNetwork.Testnet
    ensures GetConfig(Testnet).moneroNetwork == Chains.Stagenet
    ensures GetConfig(Regtest).bitcoinNetwork == Chains.BitcoinLibNetwork.Regtest
    ensures GetConfig(Regtest).moneroNetwork == Chains.MoneroLibNetwork.Mainnet
  {
  }

  /** The polling intervals each deployment ends up with. */
  lemma {:induction false} ConfigSyncIntervals()
    ensures BitcoinSyncInterval(GetConfig(Mainnet)) == Seconds(60)
    ensures MoneroSyncInterval(GetConfig(Mainnet)) == Seconds(12)
    ensures BitcoinSyncInterval(GetConfig(Testnet)) == Seconds(30)
    ensures MoneroSyncInterval(GetConfig(Testnet)) == Seconds(12)
    ensures BitcoinSyncInterval(GetConfig(Regtest)) == Seconds(1)
    ensures MoneroSyncInterval(GetConfig(Regtest)) == Seconds(1)
  {
    SyncIntervalPiecewise(Seconds(5));
    SyncIntervalPiecewise(Seconds(1));
  }
}

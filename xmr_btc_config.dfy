/** The constants of the legacy `xmr_btc::config::mainnet` profile. */
module XmrBtcMainnet {
  import opened Time

  /** Bob gets ten minutes for each step. */
  const BobTimeToAct: Duration := Seconds(10 * 60)
  const BitcoinFinalityConfirmations: nat := 3
  const BitcoinAvgBlockTime: Duration := Seconds(10 * 60)
}

/** The constants of the legacy `xmr_btc::config::regtest` profile. */
module XmrBtcRegtest {
  import opened Time

  /** Ten seconds, so that tests fail fast. */
  const BobTimeToAct: Duration := Seconds(10)
  const BitcoinFinalityConfirmations: nat := 1
  const BitcoinAvgBlockTime: Duration := Seconds(5)
}

/** `xmr_btc::config::Config` and its two constructors. */
module XmrBtcConfig {
  import opened Base
  import opened Time
  import XmrBtcMainnet
  import XmrBtcRegtest
  import Env

  datatype Config = Config(bobTimeToAct: Duration, bitcoinFinalityConfirmations: u32, bitcoinAvgBlockTime: Duration)

  /** `Config::mainnet`: ten minutes for Bob, three confirmations, ten-minute blocks. */
  function Mainnet(): (c: Config)
    ensures c == Config(Seconds(600), 3, Seconds(600))
  {
    Config(XmrBtcMainnet.BobTimeToAct, XmrBtcMainnet.BitcoinFinalityConfirmations, XmrBtcMainnet.BitcoinAvgBlockTime)
  }

  /** `Config::regtest`: ten seconds for Bob, one confirmation, five-second blocks. */
  function Regtest(): (c: Config)
    ensures c == Config(Seconds(10), 1, Seconds(5))
  {
    Config(XmrBtcRegtest.BobTimeToAct, XmrBtcRegtest.BitcoinFinalityConfirmations, XmrBtcRegtest.BitcoinAvgBlockTime)
  }

  /** Regtest is strictly faster than mainnet in every setting, and both wait for at
      least one confirmation. */
  lemma RegtestBelowMainnet()
    ensures Regtest().bobTimeToAct < Mainnet().bobTimeToAct
    ensures 0 < Regtest().bitcoinFinalityConfirmations < Mainnet().bitcoinFinalityConfirmations
    ensures Regtest().bitcoinAvgBlockTime < Mainnet().bitcoinAvgBlockTime
  {
  }

  /** The legacy profiles agree with the swap engine's mainnet and regtest settings
      on the Bitcoin confirmation target and average block time. */
  lemma AgreesWithSwapEnv()
    ensures Mainnet().bitcoinFinalityConfirmations == Env.GetConfig(Env.Mainnet).bitcoinFinalityConfirmations
    ensures Mainnet().bitcoinAvgBlockTime == Env.GetConfig(Env.Mainnet).bitcoinAvgBlockTime
    ensures Regtest().bitcoinFinalityConfirmations == Env.GetConfig(Env.Regtest).bitcoinFinalityConfirmations
    ensures Regtest().bitcoinAvgBlockTime == Env.GetConfig(Env.Regtest).bitcoinAvgBlockTime
  {
  }
}

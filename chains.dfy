/** The network selectors of the two chain libraries the swap engine builds on:
    `bitcoin::Network` and `monero::Network`. */
module Chains {

  /** `bitcoin::Network`. */
  datatype BitcoinLibNetwork = Bitcoin | Testnet | Signet | Regtest

  /** `monero::Network`. */
  datatype MoneroLibNetwork = Mainnet | Stagenet | Testnet
}

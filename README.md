# xmr-btc-swap: wire types, settings and the execution-setup listener

A Dafny model of four small pieces of the XMR/BTC atomic-swap engine, with the
properties they promise proved.

- **Spot-price negotiation** (`SpotPrice`, on top of `Json`). This covers:
  - the request, response and refusal types of the spot-price protocol;
  - the conversions from the chain libraries' network enums;
  - the externally tagged serde encoding. `Json` models the JSON values
    `serde_json` works with and their compact text. `SpotPrice` encodes its
    types into them and decodes them the way derived `Deserialize` does.

  The proofs cover the seven strings of the snapshot test and the general text
  layout of every variant. They also show that decoding an encoding gives back
  the original request or response.
- **Swap settings** (`Env`, on top of `Time`). This covers:
  - the settings record;
  - the polling interval `max(t / 10, 1 s)`. It uses Rust's `Duration / u32`
    algorithm on a duration held as nanoseconds;
  - the two confirmation-count overrides;
  - the mainnet, testnet and regtest constant settings.
- **Alice's execution-setup listener** (`ExecutionSetup`). A `Substream` class
  holds three things:
  - the frames Bob has sent and that are still unread;
  - a log of reads and writes;
  - the number of writes the connection still accepts.

  Its `Listen` method runs the three-round handshake with early returns, like the
  `?` operators of the source. It is proved to equal the function `Handshake` on
  the substream's state. The lemmas about `Handshake` cover the order of reads
  and writes, what each write contains, and which failures can happen in which
  round. The cryptographic state machine enters as a `Crypto` value of
  uninterpreted functions.
- **Legacy profiles** (`XmrBtcMainnet`, `XmrBtcRegtest`, `XmrBtcConfig`): the two
  constant profiles of `xmr_btc::config`.

Durations are natural numbers of nanoseconds. `u32` and `u64` are subset types
of `int` with their exact ranges. On one point the code and its comment
disagree: the comment on the regtest `BOB_TIME_TO_ACT` says five seconds, but the
value is ten seconds. The model uses the code's ten seconds.

## Model

| member | source | states |
|---|---|---|
| `SpotPrice.NetworksEqual` | swap/src/network/spot_price.rs:72-76 | Two declared network pairs are equal exactly when both their Bitcoin and Monero components are equal. |
| `SpotPrice.FromBitcoinLib` | swap/src/network/spot_price.rs:93-102 | Each `bitcoin::Network` maps to the wire network that `ToBitcoinLib` takes back to it; `Bitcoin` becomes `Mainnet`. |
| `SpotPrice.FromMoneroLib` | swap/src/network/spot_price.rs:104-112 | Each `monero::Network` maps to the wire network of the same name, which `ToMoneroLib` takes back to it. |
| `SpotPrice.ConversionsBijective` | swap/src/network/spot_price.rs:93-112 | The `From` conversions are total and one-to-one: four Bitcoin networks map to four distinct wire networks and three Monero networks to three. The inverse conversions undo them in both directions. |
| `SpotPrice.EncodeNetwork` | swap/src/network/spot_price.rs:72-91 | A network pair is written as a struct of two unit variants. Decoding the result gives the pair back. |
| `SpotPrice.EncodeRequest` | swap/src/network/spot_price.rs:31-36 | A request is written as a struct with the satoshi amount and the network pair. Decoding the result gives the request back. |
| `SpotPrice.EncodeError` | swap/src/network/spot_price.rs:44-70 | A refusal reason is externally tagged: its tag is the variant name. Only `NoSwapsAccepted` and `Other` carry no content. |
| `SpotPrice.EncodeResponse` | swap/src/network/spot_price.rs:38-42 | A response is externally tagged with `Xmr` or `Error`, and both carry content. |
| `SpotPrice.XmrText` | swap/src/network/spot_price.rs:38-42 | A quote is written `{"Xmr":N}`, where N is the decimal digits of the piconero amount. Reading those digits gives the amount back. |
| `SpotPrice.ErrorResponseText` | swap/src/network/spot_price.rs:38-42 | A refusal is written as a one-member `Error` object holding the refusal reason's own text. |
| `SpotPrice.UnitErrorTexts` | swap/src/network/spot_price.rs:44-70 | The refusal reasons without content, `NoSwapsAccepted` and `Other`, are bare strings. |
| `SpotPrice.BelowMinimumText` | swap/src/network/spot_price.rs:47-52 | For any amounts: `{"AmountBelowMinimum":{"min":M,"buy":B}}`, with satoshi digits and `min` first. |
| `SpotPrice.AboveMaximumText` | swap/src/network/spot_price.rs:53-58 | For any amounts: `{"AmountAboveMaximum":{"max":M,"buy":B}}`, with satoshi digits and `max` first. |
| `SpotPrice.BalanceTooLowText` | swap/src/network/spot_price.rs:59-62 | For any amount: `{"BalanceTooLow":{"buy":B}}`, with satoshi digits. |
| `SpotPrice.NetworkText` | swap/src/network/spot_price.rs:72-91 | A network pair is `{"bitcoin":"<name>","monero":"<name>"}`; each name is its enum variant's name as a bare string. |
| `SpotPrice.MismatchText` | swap/src/network/spot_price.rs:63-66 | `BlockchainNetworkMismatch` is written as an object holding the `cli` pair and then the `asb` pair. |
| `SpotPrice.RequestText` | swap/src/network/spot_price.rs:31-36 | A request is `{"btc":N,"blockchain_network":P}`. N is the satoshi count in decimal digits, which read back give the amount; P is the declared pair. |
| `SpotPrice.SnapshotXmr` | swap/src/network/spot_price.rs:125-128 | `Xmr(100000)` is written exactly as `{"Xmr":100000}`. |
| `SpotPrice.SnapshotNoSwapsAccepted` | swap/src/network/spot_price.rs:130-132 | `Error(NoSwapsAccepted)` is written exactly as `{"Error":"NoSwapsAccepted"}`. |
| `SpotPrice.SnapshotBelowMinimum` | swap/src/network/spot_price.rs:134-140 | With zero amounts the text is exactly `{"Error":{"AmountBelowMinimum":{"min":0,"buy":0}}}`. |
| `SpotPrice.SnapshotAboveMaximum` | swap/src/network/spot_price.rs:142-148 | With zero amounts the text is exactly `{"Error":{"AmountAboveMaximum":{"max":0,"buy":0}}}`. |
| `SpotPrice.SnapshotBalanceTooLow` | swap/src/network/spot_price.rs:150-155 | With a zero amount the text is exactly `{"Error":{"BalanceTooLow":{"buy":0}}}`. |
| `SpotPrice.SnapshotMismatch` | swap/src/network/spot_price.rs:157-170 | With the pairs (Mainnet, Mainnet) and (Testnet, Stagenet), the text is exactly the snapshot string. |
| `SpotPrice.SnapshotOther` | swap/src/network/spot_price.rs:172-174 | `Error(Other)` is written exactly as `{"Error":"Other"}`. |
| `SpotPrice.DecodeU64` | swap/src/network/spot_price.rs:33-34 | An amount decodes exactly when the value is an integer within the range of `u64`, and the result is that integer. |
| `SpotPrice.VariantOf` | swap/src/network/spot_price.rs:44-70 | An externally tagged enum value is accepted exactly when it is a bare string or an object with exactly one member. A string gives its text as the tag with no content; a one-member object gives the member name as the tag and the member value as the content. |
| `SpotPrice.DecodeStruct1` | swap/src/network/spot_price.rs:59-62 | A one-field struct is read from an object or a one-element array. Any other kind of value is `InvalidType`, and an array of another length is `InvalidLength`. An object without the field is `MissingField`. |
| `SpotPrice.DecodeStruct2` | swap/src/network/spot_price.rs:31-36 | A two-field struct is read from an object or a two-element array. Any other kind of value is `InvalidType`, and an array of another length is `InvalidLength`. An object missing either field is rejected. |
| `SpotPrice.DecodeNetwork` | swap/src/network/spot_price.rs:72-76 | A network pair must be a struct. A value that is neither object nor array is rejected as `InvalidType`, and an object lacking `bitcoin` or `monero` is rejected. |
| `SpotPrice.DecodeRequest` | swap/src/network/spot_price.rs:31-36 | A request must be a struct. A value that is neither object nor array is rejected as `InvalidType`, and an object lacking `btc` or `blockchain_network` is rejected. |
| `SpotPrice.DecodeBitcoinNetwork` | swap/src/network/spot_price.rs:78-84 | A Bitcoin network is read by its tag: the decoded variant is the one the tag names, a value that is no enum is `InvalidType`, and a tag that names none of the four variants is `UnknownVariant` with that tag. |
| `SpotPrice.DecodeMoneroNetwork` | swap/src/network/spot_price.rs:86-91 | A Monero network is read by its tag: the decoded variant is the one the tag names, a value that is no enum is `InvalidType`, and a tag that names none of the three variants is `UnknownVariant` with that tag. |
| `SpotPrice.DecodeError` | swap/src/network/spot_price.rs:44-70 | A refusal reason is read by its tag. A decoded value is the variant the tag names. A value that is no enum is `InvalidType`, and a tag that names no variant is `UnknownVariant` with that tag. |
| `SpotPrice.DecodeResponse` | swap/src/network/spot_price.rs:38-42 | A response is read by its tag in the same way: the decoded variant is the one the tag names, a value that is no enum is `InvalidType`, and a tag other than `Xmr` and `Error` is `UnknownVariant`. |
| `SpotPrice.ErrorRoundTrip` | swap/src/network/spot_price.rs:44-70 | Decoding an encoded refusal reason gives it back, including its amounts and both network pairs. |
| `SpotPrice.ResponseRoundTrip` | swap/src/network/spot_price.rs:38-42 | Decoding an encoded response gives the response back. |
| `SpotPrice.EncodingsInjective` | swap/src/network/spot_price.rs:31-70 | Distinct responses have distinct encodings, and so do distinct requests. |
| `Json.NatText` | swap/src/network/spot_price.rs:33-34 | An amount is written as a non-empty string of decimal digits. |
| `Json.NatTextRoundTrip` | swap/src/network/spot_price.rs:33-34 | An amount's digits have no leading zero, unless the amount is zero, and read back as the amount. |
| `Json.Text` | swap/src/network/spot_price.rs:31-70 | The compact text of a value is never empty. |
| `Json.TextFirstChar` | swap/src/network/spot_price.rs:31-70 | The first character of a value's text says whether an object, an array or a string follows. |
| `Time.Seconds` | swap/src/env.rs:107 | `Duration::from_secs(n)` is a whole number of seconds, namely n. |
| `Time.DivU32` | swap/src/env.rs:107 | `Duration / u32` follows the older standard library algorithm, which carries only the remainder of the seconds. Its result is at most one nanosecond below the floored quotient of the nanoseconds and never above it. |
| `Time.DivTenIsFloor` | swap/src/env.rs:107 | `Duration / u32` divides the seconds and the sub-second nanoseconds separately and carries the remainder of the seconds. With a divisor of 10 the result is exactly the floor of the nanoseconds over ten. |
| `Time.Max` | swap/src/env.rs:107 | `max` returns one of its arguments and is at least both. |
| `Env.SyncInterval` | swap/src/env.rs:106-108 | Rust's division by 10 gives the floor, so the polling interval is `max(t / 10, 1 s)` over nanoseconds. |
| `Env.SyncIntervalPiecewise` | swap/src/env.rs:106-108 | The polling interval is at least one second. It is t/10 when t is at least 10 s, and exactly 1 s when t is below 10 s. |
| `Env.SyncIntervalMonotone` | swap/src/env.rs:106-108 | A longer block time never gives a shorter polling interval. |
| `Env.SyncIntervalExamples` | swap/src/env.rs:114-126 | 1 s gives 1 s, and 100 s gives 10 s. |
| `Env.BitcoinSyncInterval` | swap/src/env.rs:20-22 | The Bitcoin polling interval is at least 1 s. It is a tenth of the Bitcoin block time once that is 10 s or more, and exactly 1 s below that. |
| `Env.MoneroSyncInterval` | swap/src/env.rs:24-26 | The Monero polling interval is at least 1 s. It is a tenth of the Monero block time once that is 10 s or more, and exactly 1 s below that. |
| `Env.WithBitcoinFinalityConfirmations` | swap/src/env.rs:28-34 | Sets the Bitcoin confirmation target to n. Restoring the old target gives back the original settings, so nothing else changed. |
| `Env.WithMoneroFinalityConfirmations` | swap/src/env.rs:36-42 | Sets the Monero confirmation target to n and changes nothing else. |
| `Env.OverridesCompose` | swap/src/env.rs:28-42 | Of two overrides of the same field, the last wins. Overrides of different fields commute. Re-setting the current value changes nothing, and no override changes a polling interval. |
| `Env.GetConfig` | swap/src/env.rs:58-104 | In every tier, both confirmation targets are positive, and the punish timelock is positive and no larger than the cancel timelock, counted in blocks. The lock-confirmation timeout also exceeds the Bitcoin block time. |
| `Env.ConfigNetworks` | swap/src/env.rs:58-104 | The chain networks of each tier. Regtest uses Bitcoin regtest with Monero mainnet. |
| `Env.ConfigSyncIntervals` | swap/src/env.rs:58-108 | Mainnet polls Bitcoin every 60 s and Monero every 12 s, testnet every 30 s and 12 s, and regtest every 1 s on both chains. |
| `ExecutionSetup.ReadStep` | swap/src/protocol/alice/execution_setup.rs:48-49 | A read succeeds exactly when the next incoming entry is a frame; it then consumes the frame and logs it. A failed read names its round, logs nothing and leaves the write capacity alone. It fails as `Closed` exactly when nothing is left, and otherwise consumes the oversized entry. |
| `ExecutionSetup.WriteStep` | swap/src/protocol/alice/execution_setup.rs:55-60 | A write succeeds exactly while the connection accepts writes. It then logs the frame; otherwise it fails with its round and changes nothing. |
| `ExecutionSetup.Exchange` | swap/src/protocol/alice/execution_setup.rs:45-88 | A complete exchange has decoded all three of Bob's frames. Alice's first frame is the encoding of her opening message, whatever Bob sent. |
| `ExecutionSetup.Handshake` | swap/src/protocol/alice/execution_setup.rs:45-88 | A run logs at most five events and takes at most three incoming entries, all from the front of the queue. Every error names round 0, 1 or 2. |
| `ExecutionSetup.Substream.ReadMessage` | swap/src/protocol/alice/execution_setup.rs:48-49 | Updates the substream as `ReadStep` says. |
| `ExecutionSetup.Substream.WriteMessage` | swap/src/protocol/alice/execution_setup.rs:55-60 | Updates the substream as `WriteStep` says. |
| `ExecutionSetup.Substream.Listen` | swap/src/protocol/alice/execution_setup.rs:42-90 | The listener body, step by step with early returns. Its result and the new substream are those of `Handshake` on the old substream. |
| `ExecutionSetup.HandshakeTrace` | swap/src/protocol/alice/execution_setup.rs:45-88 | A run only appends to the log and uses one write capacity per write. |
| `ExecutionSetup.HandshakeAlternates` | swap/src/protocol/alice/execution_setup.rs:45-88 | The appended events alternate read, write, read, write, read. |
| `ExecutionSetup.HandshakeReadsInput` | swap/src/protocol/alice/execution_setup.rs:45-88 | The k-th read logged is Bob's k-th frame. |
| `ExecutionSetup.HandshakeFirstWrite` | swap/src/protocol/alice/execution_setup.rs:45-60 | The first write is the encoding of `next_message` of the initial state, whatever Bob sent. It happens only after Bob's message 0 has decoded and been folded into `state1`. |
| `ExecutionSetup.HandshakeRoundZeroRejects` | swap/src/protocol/alice/execution_setup.rs:47-53 | If message 0 does not decode, or `state0.receive` rejects it, the run fails in round 0. It has read one frame and written nothing. |
| `ExecutionSetup.HandshakeRoundZeroWritesNothing` | swap/src/protocol/alice/execution_setup.rs:47-60 | Every round-0 read, decode or fold failure leaves the log without any write. |
| `ExecutionSetup.HandshakeRoundOneInfallible` | swap/src/protocol/alice/execution_setup.rs:62-68 | Round 1 fails only by a failed read or a failed decode, never by the fold into `state2`. Every error names round 0, 1 or 2. |
| `ExecutionSetup.HandshakeSecondWrite` | swap/src/protocol/alice/execution_setup.rs:70-84 | The second write is the encoding of `next_message` of `state2`, the fold of Bob's first two messages. It comes before Bob's message 2 is read. |
| `ExecutionSetup.HandshakeSucceeds` | swap/src/protocol/alice/execution_setup.rs:45-88 | A run succeeds exactly when Bob's three frames make a complete `Exchange` and the connection accepts Alice's two writes. The state returned is `state2.receive(message2)` of that exchange, and the log gains exactly read, write, read, write, read. |
| `ExecutionSetup.FromBehaviourOutEvent` | swap/src/protocol/alice/execution_setup.rs:17-24 | An inbound success becomes `Done` with that success, and an inbound error becomes `Done` with that error. Outbound events are excluded by the precondition. |
| `ExecutionSetup.DoneCarriesHandshake` | swap/src/protocol/alice/execution_setup.rs:12-24 | A finished run is reported as `Done` carrying the run's own result. |
| `XmrBtcConfig.Mainnet` | xmr-btc/src/config.rs:12-18 | `Config::mainnet` is 600 s for Bob to act, 3 confirmations and a 600 s block time. |
| `XmrBtcConfig.Regtest` | xmr-btc/src/config.rs:20-26 | `Config::regtest` is 10 s for Bob to act, 1 confirmation and a 5 s block time, following the code rather than its comment. |
| `XmrBtcConfig.RegtestBelowMainnet` | xmr-btc/src/config.rs:33-48 | Every regtest field is strictly below its mainnet counterpart, and both profiles need at least one confirmation. |
| `XmrBtcConfig.AgreesWithSwapEnv` | xmr-btc/src/config.rs:35-48 | The legacy profiles agree with the swap engine's mainnet and regtest settings on the Bitcoin confirmation target and block time. |

## Left out

- CBOR bytes: `serde_cbor`'s byte layout is not modelled. The handshake treats the codec as uninterpreted decode and encode functions. `SpotPrice` models serde's data model through the JSON shape its tests pin down.
- `BUF_SIZE`: the constant is not part of this model. A frame too large for the read buffer is an abstract `Oversized` entry whose read fails. The failed read still consumes the entry, and nothing after it matters because the run ends.
- Cryptography: the internals of `State0`..`State3` and of Bob's and Alice's messages are abstract types, and their transitions are the fields of `Crypto`.
- libp2p plumbing: `SpotPriceProtocol`, the `RequestResponse` behaviour, the `NetworkBehaviour` derive and the `libp2p_async_await` listener machinery are left out. Only the two protocol-id strings are kept. At the substream level the connection appears as two things: the list of incoming frames and a count of writes it still accepts.
- The peer id given to `run` is left out: it only selects which connection the listener accepts.
- Async scheduling and concurrency between attempts: out of scope. One attempt runs sequentially.
- Error messages: the `anyhow` context strings and serde's error texts are left out. Errors are a closed datatype naming the round and kind.
- Json.Text: its contract says only that the text is never empty. The exact layout of each wire type is stated by the `*Text` lemmas of `SpotPrice`, which build on `ObjText1Of`, `ObjText2Of` and their nested forms.
- `Json.Quote`: string escaping in `serde_json` output is left out. Every string the protocol writes is a Rust identifier or field name, so none has a character that needs escaping.
- JSON numbers: only integers are modelled. Floats, and the string forms `serde_json` accepts for numbers, are left out.
- Struct decoding: both forms a derived struct `Deserialize` accepts are modelled, an object (unknown members skipped, a repeated or missing field an error) and an array of exactly the fields. Borrowed strings and byte-string forms are left out; they do not change which values decode.
- `NetworkNotSupported`: it is declared in the source but no shown code uses it, so it is not modelled.
- `Env.Config`: the `u64` range of `Duration` seconds is not enforced, because no configured value comes near it.
- The `Lazy` statics of the legacy profiles become plain constants, and `time`'s `.hours()`/`.minutes()`/`.seconds()` become `Time.Hours`/`Minutes`/`Seconds`.
- swap/tests/happy_path_restart_bob_after_comm.rs: the test is commented out entirely, and it needs live chains and wallets, so it is not modelled.
- Pricing policy: the responder's pricing, its minimum and maximum, its balance checks and any network-mismatch check are not in the modelled code, so they are not modelled.

/** The protocol's messages as values (internal/udpst/protocol.go, internal/udpst/srates.go). */
module Messages {
  import opened Words

  const LOAD_HDR_SIZE: nat := 32

  /** The response code of an accepted setup or activation. */
  const ACK_OK: u8 := 1

  /** Marks a delay field without data. */
  const NO_DELAY: u32 := 0xFFFF_FFFF

  /** One row of the sending rate table: two transmitters and an add-on datagram. */
  datatype Rate = Rate(
    txInterval1: u32, udpPayload1: u32, burstSize1: u32,
    txInterval2: u32, udpPayload2: u32, burstSize2: u32, udpAddon2: u32)

  type Digest = d: seq<u8> | |d| == 32 witness seq(32, _ => 0)

  datatype AuthTrailer = AuthTrailer(authMode: u8, authUnixTime: u32, authDigest: Digest, keyId: u8)

  function NoAuth(): AuthTrailer { AuthTrailer(0, 0, seq(32, _ => 0), 0) }

  datatype SetupPDU = SetupPDU(
    protocolVer: u16, mcIndex: u8, mcCount: u8, mcIdent: u16, cmdRequest: u8, cmdResponse: u8,
    maxBandwidth: u16, testPort: u16, modifiers: u8, auth: AuthTrailer)

  datatype TestActPDU = TestActPDU(
    protocolVer: u16, cmdRequest: u8, cmdResponse: u8, lowThresh: u16, upperThresh: u16,
    trialInt: u16, testIntTime: u16, legacySubIntSec: u8, dscpEcn: u8, srIndexConf: u16,
    useOwDelVar: u8, highSpeedDelta: u8, slowAdjThresh: u16, seqErrThresh: u16,
    ignoreOooDup: u8, modifiers: u8, rateAdjAlgo: u8, ecnCEThresh: u8, sr: Rate,
    subIntPeriod: u16, srAdjSuppCount: u16, auth: AuthTrailer, legacy: bool)

  datatype LoadPDU = LoadPDU(
    testAction: u8, rxStopped: u8, seqNo: u32, udpPayload: u16, spduSeqErr: u16,
    spduTimeSec: u32, spduTimeNsec: u32, timeSec: u32, timeNsec: u32, rttRespDelay: u16)

  datatype SubIntStats = SubIntStats(
    rxDatagrams: u32, rxBytes: u64, deltaTime: u32, seqErrLoss: u32, seqErrOoo: u32, seqErrDup: u32,
    delayVarMin: u32, delayVarMax: u32, delayVarSum: u32, delayVarCnt: u32,
    rttVarMin: u32, rttVarMax: u32, accumTime: u32)

  datatype StatusPDU = StatusPDU(
    testAction: u8, rxStopped: u8, seqNo: u32, sr: Rate, subIntSeqNo: u32, subIntSaved: SubIntStats,
    seqErrLoss: u32, seqErrOoo: u32, seqErrDup: u32, clockDeltaMin: u32,
    delayVarMin: u32, delayVarMax: u32, delayVarSum: u32, delayVarCnt: u32,
    rttMinimum: u32, rttVarSample: u32, delayMinUpd: u8,
    tiDeltaTime: u32, tiRxDatagrams: u32, tiRxBytes: u32, timeSec: u32, timeNsec: u32,
    authMode: u8, tiRxCECount: u32, savedCECount: u32, modifiers: u8, legacy: bool)
}

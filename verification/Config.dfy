/** Constants shared by client and server (Net/NetCommon.h, Sim/SimConfig.h, Net/Client/ClientPrediction.h). */
module Config {
  const MAX_PLAYERS := 4
  const TICK_RATE := 60
  const HISTORY_SIZE := 128
}

/** The daemon's configuration records and their defaults. */
module Configuration {
  import opened Types

  datatype SpiConfig = SpiConfig(device: string, bus: u32, chipSelect: u32, speedHz: u32, mode: bv8)

  datatype PollingConfig = PollingConfig(intervalMs: u64, debounceMs: u64)

  /** A value that fires `command`: compared whole, or after masking with
      `mask` when one is given. */
  datatype ValueTrigger = ValueTrigger(value: bv8, mask: Option<bv8>, command: string, description: Option<string>)

  datatype RegisterMapping = RegisterMapping(registerAddress: u8, name: string, valueTriggers: seq<ValueTrigger>)

  datatype Config = Config(spi: SpiConfig, polling: PollingConfig, registers: seq<RegisterMapping>)

  /** `Config::default`. */
  function DefaultConfig(): (c: Config)
    ensures c.spi.device == "/dev/spidev0.0"
    ensures c.spi.bus == 0 && c.spi.chipSelect == 0 && c.spi.mode == 0
    ensures c.spi.speedHz == 1_000_000
    ensures c.polling.intervalMs == 100 && c.polling.debounceMs == 50
    ensures c.registers == []
  {
    Config(
      SpiConfig("/dev/spidev0.0", 0, 0, 1_000_000, 0),
      PollingConfig(100, 50),
      [])
  }
}

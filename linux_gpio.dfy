/** The GPIO numbering of the Linux micro-controller build: a pin number
    packs a gpiochip port and a line on it, 288 lines per port, and the
    tick length in nanoseconds follows from the configured clock. C's `/`
    and `%` truncate toward zero, so they are `Ints.CDiv` and `Ints.CMod`. */
module LinuxGpio {
  import Ints

  const MAX_GPIO_LINES: int := 288
  const NSECS: int := 1_000_000_000

  /** `GPIO(PORT, NUM)`. */
  function Gpio(port: int, num: int): int
  {
    port * MAX_GPIO_LINES + num
  }

  /** `GPIO2PORT(PIN)`. */
  function Gpio2Port(pin: int): int
  {
    Ints.CDiv(pin, MAX_GPIO_LINES)
  }

  /** `GPIO2PIN(PIN)`. */
  function Gpio2Pin(pin: int): int
  {
    Ints.CMod(pin, MAX_GPIO_LINES)
  }

  /** Packing a port and a line below 288 and taking the port back out
      gives the port. */
  lemma {:induction false} PortOfGpio(port: int, num: int)
    requires port >= 0 && 0 <= num < MAX_GPIO_LINES
    ensures Gpio2Port(Gpio(port, num)) == port
  {
  }

  /** Packing a port and a line below 288 and taking the line back out
      gives the line. */
  lemma {:induction false} PinOfGpio(port: int, num: int)
    requires port >= 0 && 0 <= num < MAX_GPIO_LINES
    ensures Gpio2Pin(Gpio(port, num)) == num
  {
    PortOfGpio(port, num);
  }

  /** Splitting any pin number and packing the parts again gives the pin
      back; with C's truncating operators this holds for negative numbers
      too. */
  lemma {:induction false} GpioOfParts(pin: int)
    ensures Gpio(Gpio2Port(pin), Gpio2Pin(pin)) == pin
  {
  }

  /** The line of a non-negative pin number is one of the port's 288. */
  lemma {:induction false} PinInRange(pin: int)
    requires pin >= 0
    ensures 0 <= Gpio2Pin(pin) < MAX_GPIO_LINES && Gpio2Port(pin) >= 0
  {
  }

  /** A negative port does not survive the round trip: port -1, line 1
      packs to -287, whose truncated quotient is 0. */
  lemma {:induction false} NegativePortLost()
    ensures Gpio(-1, 1) == -287 && Gpio2Port(Gpio(-1, 1)) == 0
  {
  }

  /** `NSECS_PER_TICK`: whole nanoseconds per tick of a clock running at
      `clockFreq` Hz, rounded down. */
  function NsecsPerTick(clockFreq: int): (r: int)
    requires clockFreq > 0
    ensures 0 <= r && r * clockFreq <= NSECS < r * clockFreq + clockFreq
  {
    Ints.CDiv(NSECS, clockFreq)
  }
}

/**
 * The parts of the machine that the bindings and the daemon only observe:
 * the chips libgpiod can open, what it reports about their lines, and what
 * its chip iterator yields. Every libgpiod call of the model reads this value.
 */
module Hardware {
  import opened Wrappers

  /** What gpiod_line_name, gpiod_line_consumer, gpiod_line_direction and
      gpiod_line_active_state report for one line (direction and active state
      as libgpiod's raw integer codes). */
  datatype LineInfo = LineInfo(name: string, consumer: string, direction: int, activeState: int)

  /** An open libgpiod chip: its name, its label (chipLabel, since `label` is a Dafny keyword), and for each offset
      0 .. num_lines - 1 the outcome of gpiod_chip_get_line at that offset
      (None: the lookup fails). */
  datatype ChipHandle = ChipHandle(name: string, chipLabel: string, lines: seq<Option<LineInfo>>)
  {
    /** gpiod_chip_num_lines */
    function NumLines(): nat { |lines| }
  }

  /** A resolved libgpiod line: the offset it was looked up at and its properties. */
  datatype LineHandle = LineHandle(offset: nat, info: LineInfo)

  /** The machine: the chips gpiod_chip_open_lookup finds, by device name, and
      what gpiod_chip_iter_new walks over (None: the iterator cannot be created). */
  datatype Machine = Machine(chips: map<string, ChipHandle>, iteration: Option<seq<ChipHandle>>)
  {
    /** gpiod_chip_open_lookup opens /dev/<name>, and that chip reports the
        same name; the daemon relies on this for distinct object paths. */
    predicate Wf()
    {
      forall d :: d in chips ==> chips[d].name == d
    }
  }

  /** The GError conditions of the bindings. */
  datatype Error =
    | OpenError(devname: string)   // "unable to open GPIO chip"
    | LookupError(offset: nat)     // "unable to retrieve the GPIO line at offset"
    | IteratorError                // "unable to create a GPIO chip iterator"
}

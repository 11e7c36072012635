/** The part of the pool's per-account statistics record that the monitor
    reads. The record arrives as JSON; only the fields used by the alarm
    evaluator and the daily summary are kept. */
module Pool {

  /** One entry of the `workers` list: its name and current hashrate. The
      evaluator only compares the hashrate with zero, so an integer is enough. */
  datatype Worker = Worker(name: string, hashrate: int)

  /** `balance` and `hashrate` are kept as the text Python renders for them;
      the counts are the total and online worker numbers. */
  datatype Stats = Stats(
    balance: string,
    hashrate: string,
    workerLength: nat,
    workerLengthOnline: nat,
    workers: seq<Worker>)
}

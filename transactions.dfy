/** The validated transaction record every stage of the pipeline reads
    (backend/models/transaction.py). */
module Transactions {

  /** A timestamp of second resolution. `seconds` orders instants and
      measures spans; `year` and `month` are its calendar month, the
      `%Y-%m` key the payroll test groups by. */
  datatype Timestamp = Timestamp(seconds: int, year: int, month: int)

  datatype Transaction = Transaction(
    id: string,
    sender: string,
    receiver: string,
    amount: real,
    time: Timestamp)

  /** Seconds in `hours` hours: `timedelta(hours=h)`. */
  function HoursToSeconds(hours: nat): nat { hours * 3600 }
}

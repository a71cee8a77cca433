/** The record type shared by the CSV file and the markdown report (internal/benchmark/benchexport/csv.go). */
module Results {
  type int64 = n: int | -0x8000_0000_0000_0000 <= n < 0x8000_0000_0000_0000

  datatype SavedResults = SavedResults(
    procedure: string,
    branchingFactor: int64,
    qtyStreams: int64,
    dataPoints: int64,
    durationMs: int64,
    visibility: string,
    samples: int64,
    unixOnly: bool)
}

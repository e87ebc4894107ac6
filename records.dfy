/** One trajectory sample, the JSON object `{"time", "x", "y", "z"}` that the
    simulation writes and the difference computation reads back. The decimal
    strings of the files are modelled as the exact values they denote. */
module Records {

  datatype Record = Record(time: real, x: real, y: real, z: real)
}

/** The sensor records of `config.h`. */
module Readings {

  /** `sensor_id_t` is `uint16_t`. */
  type SensorId = x: int | 0 <= x < 0x1_0000

  /** `sensor_data_t`; `double` values are exact reals here. */
  datatype Reading = Reading(id: SensorId, value: real, ts: int)

  datatype Option<+T> = None | Some(value: T)

  /** The readings carrying one id, in order. */
  function OfSensor(rs: seq<Reading>, id: SensorId): seq<Reading> {
    if rs == [] then []
    else
      var before, r := OfSensor(rs[..|rs| - 1], id), rs[|rs| - 1];
      if r.id == id then before + [r] else before
  }

  function Values(rs: seq<Reading>): (vs: seq<real>)
    ensures |vs| == |rs|
    ensures forall i :: 0 <= i < |rs| ==> vs[i] == rs[i].value
  {
    seq(|rs|, i requires 0 <= i < |rs| => rs[i].value)
  }
}

// Results that may be absent, and the error codes of error_code.h that the models return.
module Wrappers {
  datatype Option<+T> = None | Some(value: T)

  datatype ErrorCode = Success | OutOfMemory | InvalidParam | InvalidCall | SystemError
    | InvalidState {
    function Number(): nat {
      match this
      case Success => 0
      case OutOfMemory => 101
      case InvalidParam => 102
      case InvalidCall => 104
      case SystemError => 106
      case InvalidState => 107
    }
  }
}

/** The JSON reply every controller sends: a success with its status, message
    and data, or a failure with its status and message. */
module Http {

  datatype Reply<+T> =
    | Ok(status: nat, message: string, data: T)
    | Err(status: nat, message: string)

}

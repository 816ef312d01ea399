/** Option and Result shapes shared by the whole model.

    A `Result` stands for a call into the cloud SDK that either returns data
    (`Ok`) or raises (`Err`); the error carries the text of the exception,
    which is what the services copy into their responses. */
module Results {

  datatype Option<+T> = None | Some(value: T)

  datatype Result<+T> = Ok(value: T) | Err(msg: string)
}

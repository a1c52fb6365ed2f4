/** Option, results and the .NET exceptions that the modelled code raises or lets through. */
module Wrappers {

  datatype Option<+T> = None | Some(value: T)

  /** The exceptions of the modelled code, one constructor per distinct cause. */
  datatype Exception =
    | NullProp                    // Exception("Prop can not be null.")
    | InvalidCast                 // InvalidCastException from a cast or an unboxing
    | NotAnInt32                  // FormatException from JsonElement.GetInt32
    | DuplicateKey(key: string)   // ArgumentException from Dictionary.Add on a present key
    | ArgumentNull                // ArgumentNullException from a null dictionary key
    | KeyNotFound(key: string)    // KeyNotFoundException from the dictionary indexer
    | ObjectExpected              // InvalidOperationException from EnumerateObject on a non-object
    | AlreadyRegistered(name: string)  // InvalidOperationException "Module ... already registered."
    | NotRegistered(name: string)      // InvalidOperationException "Module ... is not registered."
    | ReaderError                 // JsonReaderException from JObject.Parse on a non-object document
  {
    /** True of exactly the exceptions that derive from InvalidOperationException. */
    predicate IsInvalidOperation() {
      ObjectExpected? || AlreadyRegistered? || NotRegistered?
    }
  }

  datatype Result<+T> = Ok(value: T) | Err(error: Exception)

  /** The result of an operation that returns nothing: it completes or throws. */
  datatype Outcome = Pass | Fail(error: Exception)
}

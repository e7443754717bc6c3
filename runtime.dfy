/**
 * What a call in the bot can end with: a value, or one of the Python
 * exceptions that the modelled code raises, lets escape or catches.
 */
module Runtime {

  datatype Option<T> = None | Some(value: T)

  /** The exceptions that occur in the modelled code paths. */
  datatype Fault =
    | IntegrityError               // sqlite3.IntegrityError: the guildid PRIMARY KEY is already taken
    | ProgrammingError             // sqlite3.ProgrammingError: wrong number of bindings for the `?` placeholders
    | NoSuchColumn(name: string)   // sqlite3.OperationalError: a field name that is not a column
    | IndexError                   // `[0]` on the empty list of rows a cursor returned
    | TypeError                    // `sqlite3.connect` handed a Connection instead of a file name
    | UnboundLocal(name: string)   // UnboundLocalError: a local read before any assignment
    | TooManyArguments             // commands.TooManyArguments raised by a command
    | MissingRequiredArgument      // commands.MissingRequiredArgument raised by a command

  datatype Result<T> = Ok(value: T) | Raise(fault: Fault)

  /** The three values a Python function of the bot can hand back where a truth value is expected. */
  datatype PyValue = PyTrue | PyFalse | PyNone
}

/** The outcome of checking form values against a zod object schema. */
module Validation {

  import opened Wrappers

  /** One failed rule: the field it is about and the message the schema
      gives, `None` where the schema relies on zod's built-in message. */
  datatype Issue = Issue(field: string, message: Option<string>)
}

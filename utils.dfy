/**
 * The message table and the JSON envelopes of package utils
 * (utils/message.go, utils/response.go).
 */
module Utils {
  import opened Wrappers

  /** The struct whose field names are the lookup keys of GetMessage. */
  datatype Message = Message(Saved: string, Updated: string, Deleted: string)

  /** The one value GetMessage builds before looking a name up in it. */
  const Messages := Message("Record saved successfully",
                            "Record updated successfully",
                            "Record deleted successfully")

  /** Reflection's FieldByName on a Message: the field whose name is exactly `name`, if any. */
  function FieldByName(msg: Message, name: string): Option<string>
  {
    if name == "Saved" then Some(msg.Saved)
    else if name == "Updated" then Some(msg.Updated)
    else if name == "Deleted" then Some(msg.Deleted)
    else None
  }

  /** The names GetMessage translates. */
  predicate IsKey(name: string)
  {
    name == "Saved" || name == "Updated" || name == "Deleted"
  }

  /**
   * The text stored under field `m`, or `m` itself when there is no such field.
   * No result is itself a key, so translating twice changes nothing.
   */
  function GetMessage(m: string): (r: string)
    ensures m == "Saved" ==> r == "Record saved successfully"
    ensures m == "Updated" ==> r == "Record updated successfully"
    ensures m == "Deleted" ==> r == "Record deleted successfully"
    ensures !IsKey(m) ==> r == m
    ensures !IsKey(r)
  {
    match FieldByName(Messages, m)
    case Some(v) => v
    case None => m
  }

  lemma GetMessageIdempotent(m: string)
    ensures GetMessage(GetMessage(m)) == GetMessage(m)
  {
  }

  /** The error envelope written by the HTTP error handler. */
  datatype HttpError = HttpError(status: bool, code: int, message: string)
  {
    /** The `error` interface of the envelope. */
    function Error(): string
    {
      message
    }
  }

  /** The success envelope; `data` is passed through untouched. */
  datatype HttpSuccess<T> = HttpSuccess(status: bool, code: int, message: string, data: T)

  function NewSuccess<T>(data: T, message: string): (r: HttpSuccess<T>)
    ensures r.status && r.code == 200
    ensures r.message == GetMessage(message) && r.data == data
  {
    HttpSuccess(true, 200, GetMessage(message), data)
  }

  function NewError(code: int, message: string): (r: HttpError)
    ensures !r.status && r.code == code
    ensures r.message == GetMessage(message)
  {
    HttpError(false, code, GetMessage(message))
  }

  /**
   * Every envelope reports its own message as its error text, and an error
   * envelope whose message is already translated is what NewError rebuilds from it.
   */
  lemma ErrorIsMessage(e: HttpError)
    ensures e.Error() == e.message
    ensures !e.status && !IsKey(e.message) ==> NewError(e.code, e.Error()) == e
  {
  }

  /** An error envelope reports the translated message, and translating it again is a no-op. */
  lemma NewErrorReportsMessage(code: int, message: string)
    ensures NewError(code, message).Error() == GetMessage(message)
    ensures NewError(code, NewError(code, message).Error()) == NewError(code, message)
  {
  }
}

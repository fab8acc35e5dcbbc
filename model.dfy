/** The records the booking core passes around. */
module Model {
  import opened Wrappers
  import opened Calendar

  /** A java.util.UUID, as its 128-bit value. */
  type Uuid = x: int | 0 <= x < 0x1_0000_0000_0000_0000_0000_0000_0000_0000

  /** A Java int. */
  type Int32 = x: int | -0x8000_0000 <= x < 0x8000_0000

  /** A stored reservation (record Booking). */
  datatype Booking = Booking(
    id: Uuid,
    name: string,
    tableSize: Int32,
    dateTime: ValidDateTime,
    customerTel: string
  )

  /**
   * The request body as deserialised (record BookingRequest): the strings
   * may be absent (Java null); date and time are still text.
   */
  datatype BookingRequest = BookingRequest(
    name: Option<string>,
    tableSize: Int32,
    date: Option<string>,
    time: Option<string>,
    customerTel: Option<string>
  )
}

/**
 * How the client's read of a streamed response body ends. The lines read
 * before the end are an input to the client loops; after them the body is
 * either closed (`readUTF8Line()` returns null or the channel is closed for
 * reading) or the request fails: the connection drops, a read raises, or
 * the request timeout expires. A failure raises out of the client call,
 * since neither loop catches around the read.
 */
module HttpBody {

  datatype BodyEnd = Closed | Fails
}

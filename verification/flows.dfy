/** The parts of an intercepted HTTP transaction that the monitor reads,
    as plain values handed over by the proxy host. */
module Flows {
  import opened Wrappers

  /** A message body: `size` is the length of its `content` (`len(content)`,
      zero when there is no content), `text` the outcome of decoding it as
      text (`get_text()`), None when decoding raises. */
  datatype Payload = Payload(size: nat, text: Option<string>)

  /** Header fields keyed by their lower-case names, so that a lookup by
      lower-case name behaves like the host's case-insensitive one. */
  type Headers = map<string, string>

  /** `host` is the request's `pretty_host`, `url` its `pretty_url`, `verb` its
      HTTP method. */
  datatype Request = Request(
    host: string,
    url: string,
    verb: string,
    headers: Headers,
    body: Payload)

  datatype Response = Response(
    status: nat,
    headers: Headers,
    body: Payload)

  /** `headers.get(name, default)`. */
  function HeaderOr(headers: Headers, name: string, default: string): (v: string)
    ensures name in headers ==> v == headers[name]
    ensures name !in headers ==> v == default
  {
    if name in headers then headers[name] else default
  }
}

/** The two pieces of the server entry point with logic of their own: the CORS
    origin rule and the listening port. */
module Server {

  import opened Wrappers
  import opened Js

  /** The front-end origins the server accepts cross-origin requests from. */
  const AllowedOrigins: seq<string> := ["http://localhost:5173", "http://localhost:5174"]

  const CorsError: string := "Not allowed by CORS"

  /** What the origin callback reports: allowed, or an error. */
  datatype CorsVerdict = Allow | Deny(error: string)

  /** The origin callback: a request without an origin (or with an empty one) and
      a request from a listed origin are allowed; every other is refused. */
  function OriginVerdict(origin: Option<string>): (r: CorsVerdict)
    ensures r == Allow || r == Deny(CorsError)
  {
    if !Present(origin) || origin.value in AllowedOrigins then Allow else Deny(CorsError)
  }

  /** Exactly three kinds of origin pass: none, the empty string, and the two listed ones. */
  lemma AllowedExactly(origin: Option<string>)
    ensures OriginVerdict(origin) == Allow <==>
      origin == None || origin == Some("") || origin == Some("http://localhost:5173")
      || origin == Some("http://localhost:5174")
  {
  }

  /** Matching is exact: a trailing slash or another port is refused. */
  lemma NearMissesRefused()
    ensures OriginVerdict(Some("http://localhost:5173/")) == Deny(CorsError)
    ensures OriginVerdict(Some("http://localhost:5175")) == Deny(CorsError)
  {
  }

  /** The port the server listens on: the PORT variable's string when it is
      set and non-empty, else the number 5000. */
  datatype Port = FromEnvironment(value: string) | Default(number: nat)

  function ListenPort(env: Option<string>): (p: Port)
    ensures p.FromEnvironment? <==> Present(env)
    ensures p.FromEnvironment? ==> p.value == env.value
    ensures p.Default? ==> p.number == 5000
  {
    if Present(env) then FromEnvironment(env.value) else Default(5000)
  }
}

/** Query-parameter lookup, as the handlers of radio.go use it through
    `req.Params(r).String(name)` and `requiredParamString(r, name)`.
    The helper itself lives in utils/req, which is not part of this model:
    a parameter counts as given when its key is present with a non-empty
    value, because the query lookup answers "" for an absent key. */
module Params {
  import opened Base

  type QueryParams = map<string, string>

  datatype ParamError = MissingParameter(name: string)

  predicate Has(q: QueryParams, name: string) {
    name in q && q[name] != ""
  }

  /** `p.String(name)`: the value, or an error naming the missing parameter. */
  function StringParam(q: QueryParams, name: string): Result<string, ParamError> {
    if Has(q, name) then Ok(q[name]) else Err(MissingParameter(name))
  }

  /** `v, _ := p.String(name)`: the error is dropped and "" stands in. */
  function OptionalParam(q: QueryParams, name: string): string {
    match StringParam(q, name)
    case Ok(v) => v
    case Err(_) => ""
  }
}

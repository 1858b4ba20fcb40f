/** Token constants used by the argument emitters.
    Their values come from the emitter's constant table, which is not part of
    this model; the values below are the ones Ruby's grammar needs. */
module Tokens {
  /** T_AMP: block parameter and block-pass sigil. */
  const Amp: string := "&"
  /** T_DSPLAT: keyword-rest sigil. */
  const DSplat: string := "**"
  /** T_SPLAT: positional-rest sigil. */
  const Splat: string := "*"
  /** T_ASN: assignment of an optional parameter's default. */
  const Asn: string := "="
  /** T_COLON: keyword parameter marker. */
  const Colon: string := ":"
  /** WS: a single space. */
  const Ws: string := " "
  /** The separator the host's `delimited` writes between elements. */
  const Delimiter: string := ", "
  /** Written before the block-local (shadow) variables. */
  const ShadowSeparator: string := "; "
  /** The pair `parentheses` and `visit_parentheses` wrap around their content. */
  const LParen: string := "("
  const RParen: string := ")"
}

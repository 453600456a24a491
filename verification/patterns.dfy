/** The two regular expressions the filter tests and the Elasticsearch plugin
    compile, as the predicates Go's `MatchString` computes for them. The match
    is unanchored, and `.` matches any character except a newline. */
module Patterns {

  /** `.+\.datadog\..+`: somewhere in the name, ".datadog." with at least one
      non-newline character right before it and right after it. */
  predicate DatadogPattern(name: string) {
    exists p | 0 <= p < |name| :: DatadogAt(name, p)
  }

  /** `.+\.datadog\..+` matches with the literal ".datadog." at position `p`. */
  predicate DatadogAt(name: string, p: int) {
    && 1 <= p && p + 9 < |name|
    && name[p..p + 9] == ".datadog."
    && name[p - 1] != '\n' && name[p + 9] != '\n'
  }

  /** `.+`: the name holds at least one non-newline character. */
  predicate AnyPattern(name: string) {
    exists i | 0 <= i < |name| :: name[i] != '\n'
  }
}

/** The managed domain record (src/types/domain.ts) and the JavaScript
    truthiness tests the generators and the reconciler apply to its optional
    fields. */
module Domains {
  import opened Wrappers

  /** A managed domain. `parentId` is the `parent_id` field the generators
      read; `port`, `description`, `category`, `tags` and `parentId` may be
      absent. */
  datatype Domain = Domain(
    id: int,
    name: string,
    ipAddress: string,
    port: Option<int>,
    isActive: bool,
    description: Option<string>,
    category: Option<string>,
    tags: Option<string>,
    parentId: Option<int>,
    createdAt: string,
    updatedAt: string)

  /** A number field is truthy when present and not 0. */
  predicate IsSetNumber(n: Option<int>) {
    n.Some? && n.value != 0
  }

  /** A string field is truthy when present and not empty. */
  predicate IsSetText(s: Option<string>) {
    s.Some? && s.value != ""
  }

  /** `n || d` for an optional number. */
  function NumberOr(n: Option<int>, d: int): int {
    if IsSetNumber(n) then n.value else d
  }

  /** `n || m` for two optional numbers. */
  function EitherNumber(n: Option<int>, m: Option<int>): Option<int> {
    if IsSetNumber(n) then n else m
  }

  predicate IsActive(d: Domain) { d.isActive }

  /** `!d.parent_id`: a domain without a (non-zero) parent. */
  predicate IsRoot(d: Domain) { !IsSetNumber(d.parentId) }

  /** `d.parent_id` truthy. */
  predicate IsSub(d: Domain) { IsSetNumber(d.parentId) }
}

/**
 * The identifier types the command-line client shares with the server's
 * JSON layer. Their textual validation rules live outside this model, so
 * every parse of them is an oracle parameter of the member that parses.
 */
module BencherJson {

  /** A 128-bit uuid, kept as its integer value. */
  datatype Uuid = Uuid(bits: nat)

  /** A url-safe resource slug. */
  type Slug = string

  /** A resource named either by its uuid or by its slug. */
  datatype ResourceId = ByUuid(uuid: Uuid) | BySlug(slug: Slug)

  /** A validated branch name. */
  datatype BranchName = BranchName(text: string)
}

/**
 * The helpers of the scm package and of the driver's other files that the
 * pull-request translator calls. Their definitions are not part of this model,
 * so every translator takes them as a value of `Env` and assumes nothing about
 * them.
 */
module Collaborators {
  import opened StashTypes

  datatype Env = Env(
    /** scm.Split: a "namespace/name" repository identifier into its two parts. */
    split: string -> (string, string),
    /** scm.Join: namespace and name back into one identifier. */
    join: (string, string) -> string,
    /** scm.ExpandRef: a branch name and a ref prefix into a full ref path. */
    expandRef: (string, string) -> string,
    /** avatarLink: an email address into an avatar URL. */
    avatarLink: string -> string,
    /** extractSelfLink: a link collection into the link of the resource itself. */
    extractSelfLink: seq<Link> -> string)
}

/** The tables of post/models.py: posts, comments, which may answer another comment of the
    same post, and likes. A like is a (user, post) pair, so the table holds at most one like
    per pair, as its `unique_together` demands. */
module PostModels {
  import opened Common

  datatype Post = Post(id: nat, userId: nat, content: Option<string>)

  datatype Comment = Comment(
    id: nat,
    userId: nat,
    postId: nat,
    parent: Option<nat>,
    content: Option<string>)

  /** A like row, identified by its (user, post) pair. */
  datatype Like = Like(userId: nat, postId: nat)
}

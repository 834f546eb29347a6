/**
  The Mattermost channel: one post per recipient channel id. The chat client is an
  oracle: `posts[i]` is what `CreatePost` returned for the i-th recipient, either the
  response's request id or the error message.
 */
module Mattermost {
  import opened Wrappers
  import opened Notifications
  import opened ErrorStacks

  /** The errors of the failed posts, in recipient order, each as a non-nil entry. */
  function Failures(posts: seq<Result<string, string>>): (r: seq<Option<string>>)
    ensures forall i :: 0 <= i < |r| ==> r[i].Some?
    ensures |r| <= |posts|
    decreases |posts|
  {
    if |posts| == 0 then []
    else
      var prefix := Failures(posts[..|posts| - 1]);
      var last := posts[|posts| - 1];
      if last.Err? then prefix + [Some(last.error)] else prefix
  }

  /** Failures is empty exactly when every post succeeded. */
  lemma {:induction false} FailuresEmpty(posts: seq<Result<string, string>>)
    ensures Failures(posts) == [] <==> forall i :: 0 <= i < |posts| ==> posts[i].Ok?
    decreases |posts|
  {
    if |posts| > 0 {
      var init := posts[..|posts| - 1];
      FailuresEmpty(init);
      if posts[|posts| - 1].Ok? {
        forall i | 0 <= i < |posts| - 1 ensures posts[i] == init[i] { }
      }
    }
  }

  /** `Send`: the results slice and the error stack, built recipient by recipient. */
  method Send(message: Notification, posts: seq<Result<string, string>>)
    returns (results: seq<string>, err: Option<seq<Option<string>>>)
    requires |posts| == |message.receptors|
    ensures |results| == |message.receptors|
    ensures forall i :: 0 <= i < |results| ==>
      results[i] == if posts[i].Err? then message.receptors[i] else posts[i].value
    ensures err == if Failures(posts) == [] then None else Some(Failures(posts))
  {
    results := [];
    var errStack := new ErrorStack();
    var i := 0;
    while i < |message.receptors|
      invariant 0 <= i <= |message.receptors|
      invariant |results| == i
      invariant forall j :: 0 <= j < i ==>
        results[j] == if posts[j].Err? then message.receptors[j] else posts[j].value
      invariant errStack.items == Failures(posts[..i])
    {
      assert posts[..i + 1][..i] == posts[..i];
      var recipient := message.receptors[i];
      if posts[i].Err? {
        errStack.Append(Some(posts[i].error));
        results := results + [recipient];
      } else {
        results := results + [posts[i].value];
      }
      i := i + 1;
    }
    assert posts[..i] == posts;
    if |errStack.items| > 0 {
      err := Some(errStack.items);
    } else {
      err := None;
    }
  }

  /** A Send reports an error exactly when at least one post failed. */
  lemma SendErrorIffFailure(posts: seq<Result<string, string>>)
    ensures Failures(posts) != [] <==> exists i :: 0 <= i < |posts| && posts[i].Err?
  {
    FailuresEmpty(posts);
  }

  /** `Status`: Mattermost posts are reported as delivered, whatever the id. */
  function Status(messageId: string): (r: Result<int, string>)
    ensures r.Ok? && r.value == StatusDelivered
  {
    Ok(StatusDelivered)
  }

  /** The channel's getters. */
  function Describe(priority: int): (c: Channel)
    ensures c.name == "Mattermost" && c.flag == "mattermost" && c.priority == priority
  {
    Channel("Mattermost", "mattermost", priority)
  }
}

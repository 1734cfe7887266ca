/**
 * The verification pass of `main`: every collected post is visited again,
 * posts found not to be original are dropped, and the others take the data
 * read from the post's own page wherever that data is present.
 */
module Verifier {
  import opened Urls
  import opened Language
  import opened Posts

  /** What `verifyAndExtractPost(page, url)` reports for one post. */
  datatype Verification = Verification(
    isOriginal: bool,
    realAuthor: string,
    realLikes: nat,
    realComments: nat,
    realReposts: nat,
    realSnippet: string)

  /** `x || d` on numbers: 0 falls back. */
  function OrCount(x: nat, d: nat): nat {
    if x != 0 then x else d
  }

  /** `x || d` on strings: the empty string falls back. */
  function OrString(x: string, d: string): string {
    if x != "" then x else d
  }

  /** The object `main` pushes for an original post. */
  function ApplyVerification(p: Post, v: Verification): (q: Post)
    ensures q.url == p.url && q.keyword == p.keyword && q.keywordId == p.keywordId
    ensures q.verified && q.title == q.author
    ensures q.total == q.likes + q.comments + q.reposts
    ensures q.language == DetectedLanguage(q.snippet)
  {
    var author := OrString(v.realAuthor, p.author);
    var snippet := OrString(v.realSnippet, p.snippet);
    var likes := OrCount(v.realLikes, p.likes);
    var comments := OrCount(v.realComments, p.comments);
    var reposts := OrCount(v.realReposts, p.reposts);
    p.(author := author, title := author, likes := likes, comments := comments, reposts := reposts,
       snippet := snippet, language := DetectedLanguage(snippet), total := likes + comments + reposts,
       verified := true)
  }

  /** `verifiedPosts` after the loop over `posts`, `verify` standing for the visits. */
  function VerifiedPosts(posts: seq<Post>, verify: string -> Verification): seq<Post> {
    if posts == [] then []
    else
      var p := posts[|posts| - 1];
      var v := verify(p.url);
      VerifiedPosts(posts[..|posts| - 1], verify) + (if v.isOriginal then [ApplyVerification(p, v)] else [])
  }

  /** A field the page reports replaces the collected one; a missing one keeps it. */
  lemma VerificationPrefersPageData(p: Post, v: Verification)
    ensures var q := ApplyVerification(p, v);
      && (v.realAuthor != "" ==> q.author == v.realAuthor) && (v.realAuthor == "" ==> q.author == p.author)
      && (v.realSnippet != "" ==> q.snippet == v.realSnippet) && (v.realSnippet == "" ==> q.snippet == p.snippet)
      && (v.realLikes != 0 ==> q.likes == v.realLikes) && (v.realLikes == 0 ==> q.likes == p.likes)
      && (v.realComments != 0 ==> q.comments == v.realComments) && (v.realComments == 0 ==> q.comments == p.comments)
      && (v.realReposts != 0 ==> q.reposts == v.realReposts) && (v.realReposts == 0 ==> q.reposts == p.reposts)
  {
  }

  /** Verification never loses data: a field present before or on the page is present after. */
  lemma VerificationKeepsData(p: Post, v: Verification)
    ensures var q := ApplyVerification(p, v);
      && (q.author == "" <==> p.author == "" && v.realAuthor == "")
      && (q.snippet == "" <==> p.snippet == "" && v.realSnippet == "")
      && (q.total == 0 <==> p.likes + p.comments + p.reposts == 0 && v.realLikes + v.realComments + v.realReposts == 0)
  {
  }

  /** Every verified post comes from a collected post whose visit found it original. */
  lemma {:induction false} VerifiedPostsOrigin(posts: seq<Post>, verify: string -> Verification)
    ensures |VerifiedPosts(posts, verify)| <= |posts|
    ensures forall q :: q in VerifiedPosts(posts, verify) ==>
      exists i :: 0 <= i < |posts| && verify(posts[i].url).isOriginal && q == ApplyVerification(posts[i], verify(posts[i].url))
    decreases |posts|
  {
    if posts != [] {
      var init := posts[..|posts| - 1];
      VerifiedPostsOrigin(init, verify);
      forall q | q in VerifiedPosts(posts, verify)
        ensures exists i :: 0 <= i < |posts| && verify(posts[i].url).isOriginal && q == ApplyVerification(posts[i], verify(posts[i].url))
      {
        if q in VerifiedPosts(init, verify) {
          var i :| 0 <= i < |init| && verify(init[i].url).isOriginal && q == ApplyVerification(init[i], verify(init[i].url));
          assert posts[i] == init[i];
        } else {
          var last := |posts| - 1;
          assert verify(posts[last].url).isOriginal && q == ApplyVerification(posts[last], verify(posts[last].url));
        }
      }
    }
  }

  /** A post whose visit finds it original is kept. */
  lemma {:induction false} OriginalsKept(posts: seq<Post>, verify: string -> Verification, i: nat)
    requires i < |posts| && verify(posts[i].url).isOriginal
    ensures ApplyVerification(posts[i], verify(posts[i].url)) in VerifiedPosts(posts, verify)
    decreases |posts|
  {
    var init := posts[..|posts| - 1];
    if i < |posts| - 1 {
      assert init[i] == posts[i];
      OriginalsKept(init, verify, i);
    }
  }

  /** Verification keeps the URLs apart: distinct normalized URLs stay distinct. */
  lemma {:induction false} VerifiedPostsDistinct(posts: seq<Post>, verify: string -> Verification)
    requires DistinctKeys(posts, PostKey)
    ensures DistinctKeys(VerifiedPosts(posts, verify), PostKey)
    ensures Keys(VerifiedPosts(posts, verify), PostKey) <= Keys(posts, PostKey)
    decreases |posts|
  {
    if posts != [] {
      var init := posts[..|posts| - 1];
      var p := posts[|posts| - 1];
      var r := VerifiedPosts(init, verify);
      assert DistinctKeys(init, PostKey) by {
        forall i, j | 0 <= i < j < |init| ensures PostKey(init[i]) != PostKey(init[j]) {
          assert init[i] == posts[i] && init[j] == posts[j];
        }
      }
      VerifiedPostsDistinct(init, verify);
      assert posts == init + [p];
      KeysSnoc(init, p, PostKey);
      assert PostKey(p) !in Keys(init, PostKey);
      var v := verify(p.url);
      if v.isOriginal {
        var q := ApplyVerification(p, v);
        KeysSnoc(r, q, PostKey);
        var s := r + [q];
        forall i, j | 0 <= i < j < |s| ensures PostKey(s[i]) != PostKey(s[j]) {
          if j == |r| {
            assert s[i] == r[i];
            assert PostKey(r[i]) in Keys(r, PostKey);
          } else {
            assert s[i] == r[i] && s[j] == r[j];
          }
        }
      } else {
        assert VerifiedPosts(posts, verify) == r;
      }
    }
  }

  /** When every post is original none is dropped. */
  lemma {:induction false} AllOriginal(posts: seq<Post>, verify: string -> Verification)
    requires forall i :: 0 <= i < |posts| ==> verify(posts[i].url).isOriginal
    ensures |VerifiedPosts(posts, verify)| == |posts|
    decreases |posts|
  {
    if posts != [] {
      var init := posts[..|posts| - 1];
      assert forall i :: 0 <= i < |init| ==> init[i] == posts[i];
      AllOriginal(init, verify);
    }
  }

  /** When no post is original nothing is left. */
  lemma {:induction false} NoneOriginal(posts: seq<Post>, verify: string -> Verification)
    requires forall i :: 0 <= i < |posts| ==> !verify(posts[i].url).isOriginal
    ensures VerifiedPosts(posts, verify) == []
    decreases |posts|
  {
    if posts != [] {
      var init := posts[..|posts| - 1];
      assert forall i :: 0 <= i < |init| ==> init[i] == posts[i];
      NoneOriginal(init, verify);
    }
  }
}

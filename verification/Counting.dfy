/** The running counts of unread and selected articles and of selected subjects, in the mode
    that shows unread articles (libtrn/Article.cpp, lines 260-314 and 500-594;
    libtrn/Subject.cpp, lines 79-220; libtrn/bits.cpp, lines 466-490). */
module Counting {

  class Topic {
    var articles: seq<Post>   // the articles of one subject
    var selected: bool        // SF_SEL
    var visit: bool           // SF_VISIT
    var wasSelected: bool     // SF_WAS_SELECTED

    constructor ()
      ensures articles == [] && !selected && !visit && !wasSelected
    {
      articles, selected, visit, wasSelected := [], false, false, false;
    }
  }

  class Post {
    var unread: bool          // AF_UNREAD
    var present: bool         // AF_EXISTS
    var selected: bool        // AF_SEL
    var deleted: bool         // AF_DEL
    var topic: Topic?

    constructor (present: bool)
      ensures !unread && !selected && !deleted && this.present == present && topic == null
    {
      unread, this.present, selected, deleted, topic := false, present, false, false, null;
    }
  }

  // What the flags say about a set of articles.

  ghost function UnreadIn(s: set<Post>): set<Post> reads s`unread { set a | a in s && a.unread }
  ghost function SelectedIn(s: set<Post>): set<Post> reads s`selected { set a | a in s && a.selected }
  ghost function PresentIn(s: set<Post>): set<Post> reads s`present { set a | a in s && a.present }
  ghost function ChosenIn(s: set<Topic>): set<Topic> reads s`selected { set t | t in s && t.selected }
  ghost function DeletedIn(s: set<Post>): set<Post> reads s`deleted { set a | a in s && a.deleted }
  ghost function VisitIn(s: set<Topic>): set<Topic> reads s`visit { set t | t in s && t.visit }
  ghost function WasIn(s: set<Topic>): set<Topic> reads s`wasSelected { set t | t in s && t.wasSelected }

  lemma OneMoreCounted<T>(s: set<T>, a: T)
    ensures |s + {a}| == |s| + if a in s then 0 else 1
    ensures |s - {a}| == |s| - if a in s then 1 else 0
  {
    if a in s {
      assert s + {a} == s && s == (s - {a}) + {a};
    } else {
      assert s - {a} == s;
    }
  }

  /** To `s0` those of `f` that are in `x` have been added. */
  ghost predicate Plus(s: set<Post>, s0: set<Post>, f: set<Post>, x: set<Post>) {
    s == s0 + (f * x)
  }

  lemma PlusStart(s0: set<Post>, x: set<Post>)
    ensures Plus(s0, s0, {}, x)
  {
  }

  lemma PlusMore(s: set<Post>, s0: set<Post>, f: set<Post>, a: Post, x: set<Post>)
    requires Plus(s, s0, f, x)
    ensures Plus(s + ({a} * x), s0, f + {a}, x)
  {
  }

  /** ... while `x` grows by `a` as far as that is in `p`. */
  lemma PlusGrowing(s: set<Post>, s0: set<Post>, f: set<Post>, a: Post, x: set<Post>, p: set<Post>)
    requires Plus(s, s0, f, x) && a !in f
    ensures var x' := x + ({a} * p); Plus(s + ({a} * x'), s0, f + {a}, x')
  {
  }

  class Counts {
    var toRead: int
    var selectedCount: int
    var selectedTopics: int
    var missing: int
    var selectedOnly: bool
    ghost var posts: set<Post>
    ghost var topics: set<Topic>

    ghost function Unread(): set<Post> reads `posts, posts`unread { UnreadIn(posts) }
    ghost function Selected(): set<Post> reads `posts, posts`selected { SelectedIn(posts) }
    ghost function Present(): set<Post> reads `posts, posts`present { PresentIn(posts) }
    ghost function Chosen(): set<Topic> reads `topics, topics`selected { ChosenIn(topics) }
    ghost function Deleted(): set<Post> reads `posts, posts`deleted { DeletedIn(posts) }
    ghost function Visit(): set<Topic> reads `topics, topics`visit { VisitIn(topics) }
    ghost function WasChosen(): set<Topic> reads `topics, topics`wasSelected { WasIn(topics) }

    /** Articles know their subject, and it them. */
    ghost predicate Filed()
      reads `posts, `topics, posts`topic, topics`articles
    {
      && (forall a :: a in posts && a.topic != null ==> a.topic in topics)
      && (forall t, i :: t in topics && 0 <= i < |t.articles| ==> t.articles[i] in posts && t.articles[i].topic == t)
      && (forall t, i, j :: t in topics && 0 <= i < j < |t.articles| ==> t.articles[i] != t.articles[j])
    }

    /** The counts are right, and whoever is selected is unread. */
    ghost predicate Right()
      reads `posts, `topics, `toRead, `selectedCount, `selectedTopics, posts`unread, posts`selected, topics`selected
    {
      && toRead == |Unread()| && selectedCount == |Selected()| && selectedTopics == |Chosen()|
      && Selected() <= Unread()
    }

    ghost predicate Valid()
      reads `posts, `topics, `toRead, `selectedCount, `selectedTopics
      reads posts`topic, topics`articles, posts`unread, posts`selected, topics`selected
    {
      Filed() && Right()
    }

    constructor ()
      ensures Valid() && posts == {} && topics == {}
    {
      toRead, selectedCount, selectedTopics, missing, selectedOnly := 0, 0, 0, 0, false;
      posts, topics := {}, {};
    }

    /** A subject comes up that has no articles yet. */
    method NewTopic() returns (t: Topic)
      requires Valid()
      modifies `topics
      ensures Valid() && fresh(t) && topics == old(topics) + {t} && t.articles == []
      ensures !t.selected && !t.visit && !t.wasSelected
      ensures Chosen() == old(Chosen()) && Selected() == old(Selected()) && Unread() == old(Unread())
    {
      hide UnreadIn, SelectedIn;
      t := new Topic();
      topics := topics + {t};
      assert Chosen() == old(Chosen());
    }

    /** An article is cached, read as yet, and filed under its subject. */
    method NewPost(present: bool, t: Topic) returns (a: Post)
      requires Valid() && t in topics
      modifies `posts, t`articles
      ensures Valid() && fresh(a) && posts == old(posts) + {a} && a.topic == t && t.articles == old(t.articles) + [a]
      ensures Unread() == old(Unread()) && Selected() == old(Selected()) && Chosen() == old(Chosen())
      ensures Present() == old(Present()) + (if present then {a} else {}) && !a.deleted
    {
      hide ChosenIn, UnreadIn, SelectedIn, PresentIn;
      a := new Post(present);
      a.topic := t;
      Joined(a);
      posts := posts + {a};
      t.articles := t.articles + [a];
    }

    lemma Joined(a: Post)
      requires a !in posts && !a.unread && !a.selected
      ensures UnreadIn(posts + {a}) == Unread() && SelectedIn(posts + {a}) == Selected()
      ensures PresentIn(posts + {a}) == Present() + if a.present then {a} else {}
    {
    }

    // ---- Single flags ----------------------------------------------------------------------------------

    static method SetUnread(a: Post, b: bool, ghost s: set<Post>)
      requires a in s
      modifies a`unread
      ensures UnreadIn(s) == if b then old(UnreadIn(s)) + {a} else old(UnreadIn(s)) - {a}
      ensures a.unread == b
    {
      a.unread := b;
    }

    static method SetSelected(a: Post, b: bool, ghost s: set<Post>)
      requires a in s
      modifies a`selected
      ensures SelectedIn(s) == if b then old(SelectedIn(s)) + {a} else old(SelectedIn(s)) - {a}
      ensures a.selected == b
    {
      a.selected := b;
    }

    static method Choose(t: Topic, b: bool, ghost s: set<Topic>)
      requires t in s
      modifies t`selected
      ensures ChosenIn(s) == if b then old(ChosenIn(s)) + {t} else old(ChosenIn(s)) - {t}
      ensures t.selected == b
    {
      t.selected := b;
    }

    static method Undelete(a: Post, ghost s: set<Post>)
      requires a in s
      modifies a`deleted
      ensures DeletedIn(s) == old(DeletedIn(s)) - {a}
    {
      a.deleted := false;
    }

    static method SetVisit(t: Topic, b: bool, ghost s: set<Topic>)
      requires t in s
      modifies t`visit
      ensures VisitIn(s) == if b then old(VisitIn(s)) + {t} else old(VisitIn(s)) - {t}
    {
      t.visit := b;
    }

    static method SetWas(t: Topic, b: bool, ghost s: set<Topic>)
      requires t in s
      modifies t`wasSelected
      ensures WasIn(s) == if b then old(WasIn(s)) + {t} else old(WasIn(s)) - {t}
    {
      t.wasSelected := b;
    }

    lemma FlagsAre(a: Post)
      requires a in posts && Filed()
      ensures (a.unread <==> a in Unread()) && (a.selected <==> a in Selected()) && (a.present <==> a in Present())
      ensures a.topic != null ==> a.topic in topics && (a.topic.selected <==> a.topic in Chosen())
    {
    }

    // ---- One flag with its count -------------------------------------------------------------------------

    method AddUnread(a: Post)
      requires Valid() && a in posts && !a.unread
      modifies `toRead, posts`unread
      ensures Valid() && Unread() == old(Unread()) + {a}
    {
      hide UnreadIn, SelectedIn, ChosenIn, Filed;
      FlagsAre(a);
      OneMoreCounted(Unread(), a);
      SetUnread(a, true, posts);
      toRead := toRead + 1;
    }

    method AddSelected(a: Post)
      requires Valid() && a in posts && a.unread
      modifies `selectedCount, posts`selected
      ensures Valid() && Selected() == old(Selected()) + {a}
    {
      hide UnreadIn, SelectedIn, ChosenIn, Filed;
      FlagsAre(a);
      OneMoreCounted(Selected(), a);
      if !a.selected {
        selectedCount := selectedCount + 1;
      }
      SetSelected(a, true, posts);
    }

    method DropSelected(a: Post)
      requires Valid() && a in posts && a.selected
      modifies `selectedCount, posts`selected
      ensures Valid() && Selected() == old(Selected()) - {a}
    {
      hide UnreadIn, SelectedIn, ChosenIn, Filed;
      FlagsAre(a);
      OneMoreCounted(Selected(), a);
      SetSelected(a, false, posts);
      selectedCount := if selectedCount == 0 then 0 else selectedCount - 1;
    }

    method DropUnread(a: Post)
      requires Valid() && a in posts && a.unread && !a.selected
      modifies `toRead, posts`unread
      ensures Valid() && Unread() == old(Unread()) - {a}
    {
      hide UnreadIn, SelectedIn, ChosenIn, Filed;
      FlagsAre(a);
      OneMoreCounted(Unread(), a);
      SetUnread(a, false, posts);
      if toRead > 0 {
        toRead := toRead - 1;
      }
    }

    method AddChosen(t: Topic)
      requires Valid() && t in topics
      modifies `selectedTopics, topics`selected
      ensures Valid() && Chosen() == old(Chosen()) + {t}
    {
      hide UnreadIn, SelectedIn, Filed, VisitIn, WasIn, DeletedIn;
      OneMoreCounted(Chosen(), t);
      if !t.selected {
        selectedTopics := selectedTopics + 1;
      }
      Choose(t, true, topics);
    }

    method DropChosen(t: Topic)
      requires Valid() && t in topics && t.selected
      modifies `selectedTopics, topics`selected
      ensures Valid() && Chosen() == old(Chosen()) - {t}
    {
      hide UnreadIn, SelectedIn, Filed, VisitIn, WasIn, DeletedIn;
      OneMoreCounted(Chosen(), t);
      Choose(t, false, topics);
      selectedTopics := selectedTopics - 1;
    }

    // ---- Single articles ---------------------------------------------------------------------------------

    /** The article becomes unread; in selected-only mode it joins a selected subject. */
    method OneMore(a: Post)
      requires Valid() && a in posts
      modifies `toRead, `selectedCount, posts`unread, posts`selected, posts`deleted, topics`visit
      ensures Valid() && Unread() == old(Unread()) + {a}
      ensures
        var joins := !old(a.unread) && a.topic != null && selectedOnly && a.topic.selected;
        Selected() == old(Selected()) + if joins then {a} else {}
      ensures Deleted() == old(Deleted()) - if old(a.unread) then {} else {a}
      ensures Visit() == old(Visit()) + if !old(a.unread) && a.topic != null && !selectedOnly then {a.topic} else {}
    {
      hide Right, UnreadIn, SelectedIn, ChosenIn, Filed, DeletedIn, VisitIn;
      FlagsAre(a);
      if !a.unread {
        AddUnread(a);
        FlagsAre(a);
        Undelete(a, posts);
        if a.topic != null {
          if selectedOnly {
            if a.topic.selected {
              AddSelected(a);
            }
          } else {
            SetVisit(a.topic, true, topics);
          }
        }
      }
    }

    /** The article becomes read, and is no longer selected. */
    method OneLess(a: Post)
      requires Valid() && a in posts
      modifies `toRead, `selectedCount, posts`unread, posts`selected
      ensures Valid() && Unread() == old(Unread()) - {a} && Selected() == old(Selected()) - {a}
    {
      hide UnreadIn, SelectedIn, ChosenIn, Filed;
      FlagsAre(a);
      if a.unread {
        if a.selected {
          DropSelected(a);
          FlagsAre(a);
        }
        DropUnread(a);
      }
    }

    /** The article turns out not to exist. */
    method OneMissing(a: Post)
      requires Valid() && a in posts
      modifies `toRead, `selectedCount, `missing, posts`unread, posts`selected, posts`present
      ensures Valid() && Unread() == old(Unread()) - {a} && Selected() == old(Selected()) - {a}
      ensures Present() == old(Present()) - {a} && missing == old(missing) + if old(a.unread) then 1 else 0
    {
      hide UnreadIn, SelectedIn, ChosenIn, Filed, Right;
      missing := missing + if a.unread then 1 else 0;
      OneLess(a);
      a.present := false;
    }

    /** Selects the article if it exists and is unread; its subject is selected in any case. */
    method SelectArticle(a: Post)
      requires Valid() && a in posts
      modifies `selectedCount, `selectedTopics, `selectedOnly, posts`selected, posts`deleted, topics`selected, topics`visit
      ensures Valid() && Selected() == old(Selected()) + if a.present && a.unread then {a} else {}
      ensures Chosen() == old(Chosen()) + if a.topic != null then {a.topic} else {}
      ensures selectedOnly == (old(selectedOnly) || Selected() != {})
      ensures Deleted() == old(Deleted()) - if a.present && a.unread then {a} else {}
      ensures Visit() == old(Visit()) + if a.topic != null then {a.topic} else {}
    {
      hide Deleted, Visit, Valid, Unread, Selected, Chosen;
      SelectIfUnread(a);
      ChooseItsTopic(a);
      AnySelected();
      selectedOnly := selectedOnly || selectedCount != 0;
    }

    lemma AnySelected()
      requires Valid()
      ensures selectedCount != 0 <==> Selected() != {}
    {
      hide Selected;
      CountsAre();
    }

    method SelectIfUnread(a: Post)
      requires Valid() && a in posts
      modifies `selectedCount, posts`selected, posts`deleted
      ensures Valid() && Selected() == old(Selected()) + if a.present && a.unread then {a} else {}
      ensures Deleted() == old(Deleted()) - if a.present && a.unread then {a} else {}
    {
      hide UnreadIn, SelectedIn, ChosenIn, Filed, Right, DeletedIn;
      if a.present && a.unread {
        Undelete(a, posts);
        AddSelected(a);
      }
    }

    method ChooseItsTopic(a: Post)
      requires Valid() && a in posts
      modifies `selectedTopics, topics`selected, topics`visit
      ensures Valid() && Chosen() == old(Chosen()) + if a.topic != null then {a.topic} else {}
      ensures Visit() == old(Visit()) + if a.topic != null then {a.topic} else {}
    {
      hide UnreadIn, SelectedIn, ChosenIn, Filed, Right, VisitIn;
      FlagsAre(a);
      if a.topic != null {
        AddChosen(a.topic);
        SetVisit(a.topic, true, topics);
      }
    }

    lemma CountsAre()
      requires Valid()
      ensures toRead == |Unread()| && selectedCount == |Selected()| && selectedTopics == |Chosen()| && Selected() <= Unread()
    {
    }

    method DeselectArticle(a: Post)
      requires Valid() && a in posts
      modifies `selectedCount, posts`selected
      ensures Valid() && Selected() == old(Selected()) - {a}
    {
      hide UnreadIn, SelectedIn, ChosenIn, Filed, Right;
      FlagsAre(a);
      if a.selected {
        DropSelected(a);
      }
    }

    // ---- All articles of a subject ---------------------------------------------------------------------------

    /** The first `k` articles of a subject. */
    ghost function First(t: Topic, k: nat): set<Post>
      requires k <= |t.articles|
      reads t`articles
    {
      set i | 0 <= i < k :: t.articles[i]
    }

    ghost function Of(t: Topic): set<Post>
      reads t`articles
    {
      First(t, |t.articles|)
    }

    lemma OfIs(t: Topic)
      ensures Of(t) == set a | a in t.articles
    {
    }

    lemma OneFurther(t: Topic, k: nat)
      requires Valid() && t in topics && k < |t.articles|
      ensures t.articles[k].topic == t
      ensures First(t, k + 1) == First(t, k) + {t.articles[k]} && t.articles[k] !in First(t, k) && t.articles[k] in posts
    {
    }

    lemma NoneYet(t: Topic)
      ensures First(t, 0) == {}
    {
    }

    /** All that exist and are unread become selected, and so does the subject if there are any. */
    method SelectSubject(t: Topic)
      requires Valid() && t in topics
      modifies `selectedCount, `selectedTopics, `selectedOnly, posts`selected, posts`deleted
      modifies topics`selected, topics`visit, topics`wasSelected
      ensures Valid() && Selected() == old(Selected()) + (Of(t) * (Unread() * Present()))
      ensures
        var grows := Selected() != old(Selected());
        && Chosen() == old(Chosen()) + (if grows then {t} else {}) && selectedOnly == (old(selectedOnly) || grows)
        && Visit() == old(Visit()) + (if grows then {t} else {}) && WasChosen() == old(WasChosen()) + {t}
      ensures Deleted() == old(Deleted()) - (Selected() - old(Selected()))
    {
      hide Valid, Selected, Unread, Present, Chosen, Of, DeletedIn, VisitIn, WasIn;
      var oldCount := selectedCount;
      SelectAll(t);
      if selectedCount > oldCount {
        MarkChosen(t);
        selectedOnly := true;
      } else {
        SetWas(t, true, topics);
      }
    }

    method MarkChosen(t: Topic)
      requires Valid() && t in topics
      modifies `selectedTopics, topics`selected, topics`visit, topics`wasSelected
      ensures Valid() && Chosen() == old(Chosen()) + {t}
      ensures Visit() == old(Visit()) + {t} && WasChosen() == old(WasChosen()) + {t}
    {
      hide UnreadIn, SelectedIn, ChosenIn, Filed, Right, VisitIn, WasIn;
      AddChosen(t);
      SetVisit(t, true, topics);
      SetWas(t, true, topics);
    }

    method SelectAll(t: Topic)
      requires Valid() && t in topics
      modifies `selectedCount, posts`selected, posts`deleted
      ensures Valid() && Selected() == old(Selected()) + (Of(t) * (Unread() * Present()))
      ensures selectedCount > old(selectedCount) <==> Selected() != old(Selected())
      ensures Deleted() == old(Deleted()) - (Selected() - old(Selected()))
    {
      hide Valid, Unread, Selected, Present, Chosen, First, Plus, DeletedIn;
      ghost var s0, ready := Selected(), Unread() * Present();
      CountsAre();
      SelectEach(t, ready);
      PlusIs(Selected(), s0, Of(t), ready);
      CountsAre();
      Grown(s0, Selected());
    }

    /** The loop over the articles of the subject. */
    method SelectEach(t: Topic, ghost ready: set<Post>)
      requires Valid() && t in topics && ready == Unread() * Present()
      modifies `selectedCount, posts`selected, posts`deleted
      ensures Valid() && Plus(Selected(), old(Selected()), Of(t), ready)
      ensures Selected() >= old(Selected()) && Deleted() == old(Deleted()) - (Selected() - old(Selected()))
    {
      hide Valid, Unread, Selected, Present, Chosen, First, Plus, DeletedIn;
      var k := 0;
      NoneYet(t);
      PlusStart(Selected(), ready);
      while k < |t.articles|
        invariant 0 <= k <= |t.articles| && Valid() && Plus(Selected(), old(Selected()), First(t, k), ready)
        invariant Selected() >= old(Selected()) && Deleted() == old(Deleted()) - (Selected() - old(Selected()))
      {
        OneFurther(t, k);
        PlusMore(Selected(), old(Selected()), First(t, k), t.articles[k], ready);
        SelectOne(t.articles[k]);
        k := k + 1;
      }
    }

    method SelectOne(a: Post)
      requires Valid() && a in posts
      modifies `selectedCount, posts`selected, posts`deleted
      ensures Valid() && Selected() == old(Selected()) + ({a} * (Unread() * Present()))
      ensures Deleted() == old(Deleted()) - (Selected() - old(Selected()))
    {
      hide UnreadIn, SelectedIn, PresentIn, ChosenIn, Filed, Right, DeletedIn;
      FlagsAre(a);
      if a.present && a.unread && !a.selected {
        Undelete(a, posts);
        AddSelected(a);
      }
    }

    /** None of the articles stays selected, nor does the subject. */
    method DeselectSubject(t: Topic)
      requires Valid() && t in topics
      modifies `selectedCount, `selectedTopics, posts`selected, topics`selected, topics`visit, topics`wasSelected
      ensures Valid() && Selected() == old(Selected()) - Of(t) && Chosen() == old(Chosen()) - {t}
      ensures Visit() == old(Visit()) - {t} && WasChosen() == old(WasChosen()) - {t}
    {
      hide Valid, UnreadIn, SelectedIn, PresentIn, First, VisitIn, WasIn;
      DeselectAll(t);
      if t.selected {
        DropChosen(t);
      }
      SetVisit(t, false, topics);
      SetWas(t, false, topics);
    }

    method DeselectAll(t: Topic)
      requires Valid() && t in topics
      modifies `selectedCount, posts`selected
      ensures Valid() && Selected() == old(Selected()) - Of(t)
    {
      hide Unread, Selected, Present, Chosen, Filed, First, Right;
      var k := 0;
      NoneYet(t);
      while k < |t.articles|
        invariant 0 <= k <= |t.articles| && Valid() && Selected() == old(Selected()) - First(t, k)
      {
        OneFurther(t, k);
        DeselectArticle(t.articles[k]);
        k := k + 1;
      }
    }

    /** Those of the articles that a kill spares. */
    static ghost function Spared(s: set<Post>, affectAll: bool): set<Post> {
      if affectAll then {} else s
    }

    /** All unread articles become read, but for the selected ones unless all are affected. */
    method KillSubject(t: Topic, affectAll: bool)
      requires Valid() && t in topics
      modifies `toRead, `selectedCount, posts`unread, posts`selected, topics`visit, topics`wasSelected
      ensures Valid() && Unread() == old(Unread()) - (Of(t) - Spared(old(Selected()), affectAll))
      ensures Selected() == old(Selected()) - (Of(t) - Spared(old(Selected()), affectAll))
      ensures Visit() == old(Visit()) - {t} && WasChosen() == old(WasChosen()) - {t}
    {
      hide Valid, UnreadIn, SelectedIn, PresentIn, First, VisitIn, WasIn;
      KillAll(t, affectAll);
      SetVisit(t, false, topics);
      SetWas(t, false, topics);
    }

    method KillAll(t: Topic, affectAll: bool)
      requires Valid() && t in topics
      modifies `toRead, `selectedCount, posts`unread, posts`selected
      ensures Valid() && Unread() == old(Unread()) - (Of(t) - Spared(old(Selected()), affectAll))
      ensures Selected() == old(Selected()) - (Of(t) - Spared(old(Selected()), affectAll))
    {
      hide Unread, Selected, Present, Chosen, Filed, First, Right;
      var k := 0;
      NoneYet(t);
      while k < |t.articles|
        invariant 0 <= k <= |t.articles| && Valid()
        invariant Unread() == old(Unread()) - (First(t, k) - Spared(old(Selected()), affectAll))
        invariant Selected() == old(Selected()) - (First(t, k) - Spared(old(Selected()), affectAll))
      {
        OneFurther(t, k);
        KillOne(t.articles[k], affectAll);
        k := k + 1;
      }
    }

    method KillOne(a: Post, affectAll: bool)
      requires Valid() && a in posts
      modifies `toRead, `selectedCount, posts`unread, posts`selected
      ensures Valid() && Unread() == old(Unread()) - ({a} - Spared(old(Selected()), affectAll))
      ensures Selected() == old(Selected()) - ({a} - Spared(old(Selected()), affectAll))
    {
      hide UnreadIn, SelectedIn, PresentIn, ChosenIn, Filed, Right;
      FlagsAre(a);
      CountsAre();
      if a.unread && (affectAll || !a.selected) {
        OneLess(a);
      }
    }

    /** All articles that exist become unread; in selected-only mode all that are unread then
        become selected, and the subject with them. */
    method UnkillSubject(t: Topic)
      requires Valid() && t in topics
      modifies `toRead, `selectedCount, `selectedTopics, posts`unread, posts`selected, posts`deleted
      modifies topics`selected, topics`visit, topics`wasSelected
      ensures Valid() && Unread() == old(Unread()) + (Of(t) * Present())
      ensures Selected() == old(Selected()) + (if selectedOnly then Of(t) * Unread() else {})
      ensures Chosen() == old(Chosen()) + (if selectedOnly && Selected() != old(Selected()) then {t} else {})
      ensures Deleted() == old(Deleted()) - (Unread() - old(Unread())) - (Selected() - old(Selected()))
      ensures
        var joins := selectedOnly && Selected() != old(Selected()) && t !in old(Chosen());
        && Visit() == old(Visit()) + (if joins || (!selectedOnly && Unread() != old(Unread())) then {t} else {})
        && WasChosen() == old(WasChosen()) + (if joins then {t} else {})
    {
      hide Valid, Selected, Unread, Present, Of, DeletedIn, VisitIn, WasIn;
      var saved := selectedCount;
      UnkillAll(t);
      if selectedCount != saved && selectedOnly && !t.selected {
        MarkChosen(t);
      }
    }

    method UnkillAll(t: Topic)
      requires Valid() && t in topics
      modifies `toRead, `selectedCount, posts`unread, posts`selected, posts`deleted, topics`visit
      ensures Valid() && Unread() == old(Unread()) + (Of(t) * Present())
      ensures Selected() == old(Selected()) + (if selectedOnly then Of(t) * Unread() else {})
      ensures selectedCount != old(selectedCount) <==> Selected() != old(Selected())
      ensures Undeleted(Deleted(), old(Deleted()), Unread(), old(Unread()), Selected(), old(Selected()))
      ensures Visit() == old(Visit()) + (if !selectedOnly && Unread() != old(Unread()) then {t} else {})
    {
      hide Valid, Unread, Selected, Present, Chosen, Deleted, Visit, WasChosen, First, Of, Plus, Undeleted, Counted;
      ghost var u0, s0, p := Unread(), Selected(), Present();
      ghost var n0 := CountedSelected();
      UnkillEach(t, p);
      PlusIs(Unread(), u0, Of(t), p);
      if selectedOnly {
        PlusIs(Selected(), s0, Of(t), Unread());
      } else {
        NoneAdded(s0);
      }
      CountTells(n0, s0);
    }

    static lemma NoneAdded(s: set<Post>)
      ensures s == s + {}
    {
    }

    /** So many are selected. */
    static ghost predicate Counted(n: int, s: set<Post>) {
      n == |s|
    }

    lemma CountedSelected() returns (n: int)
      requires Valid()
      ensures n == selectedCount && Counted(n, Selected())
    {
      n := selectedCount;
    }

    lemma CountTells(n0: int, s0: set<Post>)
      requires Valid() && Counted(n0, s0) && s0 <= Selected()
      ensures selectedCount != n0 <==> Selected() != s0
    {
      hide Selected;
      CountsAre();
      Grown(s0, Selected());
    }

    method UnkillEach(t: Topic, ghost p: set<Post>)
      requires Valid() && t in topics && p == Present()
      modifies `toRead, `selectedCount, posts`unread, posts`selected, posts`deleted, topics`visit
      ensures Valid() && Plus(Unread(), old(Unread()), Of(t), p)
      ensures if selectedOnly then Plus(Selected(), old(Selected()), Of(t), Unread()) else Selected() == old(Selected())
      ensures Undeleted(Deleted(), old(Deleted()), Unread(), old(Unread()), Selected(), old(Selected()))
      ensures Visit() == old(Visit()) + (if !selectedOnly && Unread() != old(Unread()) then {t} else {})
    {
      hide Valid, Unread, Selected, Present, Chosen, First, Plus, DeletedIn, VisitIn, Undeleted;
      ghost var u0, s0, d0, v0 := Unread(), Selected(), Deleted(), Visit();
      var k := 0;
      NoneYet(t);
      PlusStart(u0, p);
      PlusStart(s0, u0);
      UndeletedNone(d0, u0, s0);
      while k < |t.articles|
        invariant 0 <= k <= |t.articles| && Valid() && Plus(Unread(), u0, First(t, k), p)
        invariant if selectedOnly then Plus(Selected(), s0, First(t, k), Unread()) else Selected() == s0
        invariant Undeleted(Deleted(), d0, Unread(), u0, Selected(), s0)
        invariant Visit() == v0 + (if !selectedOnly && Unread() != u0 then {t} else {})
      {
        ghost var a, f := t.articles[k], First(t, k);
        OneFurther(t, k);
        PlusMore(Unread(), u0, f, a, p);
        if selectedOnly { PlusGrowing(Selected(), s0, f, a, Unread(), p); }
        ghost var d1, u1, s1 := Deleted(), Unread(), Selected();
        UnkillOne(t.articles[k]);
        UndeletedMore(d0, u0, s0, d1, u1, s1, Deleted(), Unread(), Selected());
        k := k + 1;
      }
    }

    /** Those that have become unread or selected are deleted no longer. */
    static ghost predicate Undeleted(d: set<Post>, d0: set<Post>, u: set<Post>, u0: set<Post>, s: set<Post>, s0: set<Post>) {
      u >= u0 && s >= s0 && d == d0 - (u - u0) - (s - s0)
    }

    static lemma UndeletedNone(d: set<Post>, u: set<Post>, s: set<Post>)
      ensures Undeleted(d, d, u, u, s, s)
    {
    }

    static lemma UndeletedMore(d0: set<Post>, u0: set<Post>, s0: set<Post>, d1: set<Post>, u1: set<Post>, s1: set<Post>,
                               d: set<Post>, u: set<Post>, s: set<Post>)
      requires Undeleted(d1, d0, u1, u0, s1, s0) && Undeleted(d, d1, u, u1, s, s1)
      ensures Undeleted(d, d0, u, u0, s, s0) && (u == u0 <==> u1 == u0 && u == u1)
    {
    }

    lemma PlusIs(s: set<Post>, s0: set<Post>, f: set<Post>, x: set<Post>)
      requires Plus(s, s0, f, x)
      ensures s == s0 + (f * x) && s0 <= s
    {
    }

    method UnkillOne(a: Post)
      requires Valid() && a in posts
      modifies `toRead, `selectedCount, posts`unread, posts`selected, posts`deleted, topics`visit
      ensures Valid() && Unread() == old(Unread()) + ({a} * Present())
      ensures Selected() == old(Selected()) + (if selectedOnly then {a} * Unread() else {})
      ensures Undeleted(Deleted(), old(Deleted()), Unread(), old(Unread()), Selected(), old(Selected()))
      ensures Visit() == old(Visit()) + (if !selectedOnly && a.topic != null && Unread() != old(Unread()) then {a.topic} else {})
    {
      hide UnreadIn, SelectedIn, PresentIn, ChosenIn, Filed, Right, DeletedIn, VisitIn;
      FlagsAre(a);
      if a.present && !a.unread {
        OneMore(a);
      }
      FlagsAre(a);
      if selectedOnly && a.unread && !a.selected {
        Undelete(a, posts);
        AddSelected(a);
      }
    }

    // ---- What one call undoes of another ----------------------------------------------------------------------

    /** Killing a subject and then unkilling it leaves the same articles unread exactly if all its
        existing articles were unread and all that were killed exist; outside selected-only mode it
        leaves the same articles selected exactly if none was killed. */
    method KillThenUnkill(t: Topic, affectAll: bool)
      requires Valid() && t in topics
      modifies `toRead, `selectedCount, `selectedTopics, posts`unread, posts`selected, posts`deleted
      modifies topics`selected, topics`visit, topics`wasSelected
      ensures Valid()
      ensures Unread() == old(Unread()) <==>
        && Of(t) * Present() <= old(Unread())
        && old(Unread()) * (Of(t) - Spared(old(Selected()), affectAll)) <= Present()
      ensures !selectedOnly ==> (Selected() == old(Selected()) <==> !affectAll || old(Selected()) !! Of(t))
    {
      hide Valid, Selected, Unread, Present, Chosen, Of;
      ghost var u0, s0 := Unread(), Selected();
      KillSubject(t, affectAll);
      UnkillSubject(t);
      UnkillUndoesKill(u0, Spared(s0, affectAll), Of(t), Present());
      if !selectedOnly { KillLosesSelection(s0, Of(t), affectAll); }
    }

    /** Deselecting a subject just selected leaves the same articles selected exactly if none of
        its articles was selected before, and the same subjects exactly if it was not. */
    method SelectThenDeselect(t: Topic)
      requires Valid() && t in topics
      modifies `selectedCount, `selectedTopics, `selectedOnly, posts`selected, posts`deleted
      modifies topics`selected, topics`visit, topics`wasSelected
      ensures Valid()
      ensures Selected() == old(Selected()) <==> old(Selected()) !! Of(t)
      ensures Chosen() == old(Chosen()) <==> t !in old(Chosen())
    {
      hide Valid, Selected, Unread, Present, Chosen, Of;
      ghost var s0, c0, ready := Selected(), Chosen(), Unread() * Present();
      SelectSubject(t);
      DeselectSubject(t);
      DeselectUndoesSelect(s0, Of(t), ready);
      assert Chosen() == c0 - {t};
    }

    lemma Grown<T>(s: set<T>, s': set<T>)
      requires s <= s'
      ensures |s'| > |s| <==> s' != s
      ensures |s'| >= |s|
    {
      var d := s' - s;
      assert s' == s + d;
      assert d == {} <==> s' == s;
    }
  }

  // ---- The sets of two calls together -----------------------------------------------------------------------

  lemma UnkillUndoesKill(unread: set<Post>, spared: set<Post>, of: set<Post>, present: set<Post>)
    ensures (unread - (of - spared)) + (of * present) == unread
            <==> of * present <= unread && unread * (of - spared) <= present
  {
    var after := (unread - (of - spared)) + (of * present);
    if of * present <= unread && unread * (of - spared) <= present {
      assert after == unread;
    }
    if after == unread {
      forall a | a in unread * (of - spared) ensures a in present {
        assert a in after;
      }
    }
  }

  lemma KillLosesSelection(selected: set<Post>, of: set<Post>, affectAll: bool)
    ensures selected - (of - Counts.Spared(selected, affectAll)) == selected <==> !affectAll || selected !! of
  {
    var after := selected - (of - Counts.Spared(selected, affectAll));
    if affectAll && after == selected {
      forall a | a in selected ensures a !in of { assert a in after; }
    }
  }

  lemma DeselectUndoesSelect(selected: set<Post>, of: set<Post>, ready: set<Post>)
    ensures (selected + (of * ready)) - of == selected <==> selected !! of
  {
    var after := (selected + (of * ready)) - of;
    if after == selected {
      forall a | a in selected ensures a !in of {
        assert a in after;
      }
    }
    if selected !! of {
      assert forall a :: a in after <==> a in selected;
    }
  }
}

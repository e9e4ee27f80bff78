/**
 * The investment page's state: the pushed insight and topic lists, the search
 * term, the dialog flags and the topic buffers, with the page's event handlers
 * as methods. Command handlers talk to the data service only through the
 * commands they issue; the lists change only when the service pushes them.
 */
module Investment {
  import opened Wrappers
  import opened Text
  import opened InsightFilter

  /** A topic as the data service pushes it (the field name keeps the service's spelling). */
  datatype Topic = Topic(id: int, name: string, explaination: string)

  /** The add-topic form: a topic without an id. */
  datatype TopicDraft = TopicDraft(name: string, explaination: string)

  const EmptyDraft := TopicDraft("", "")

  /** How a service command settles: a `{success, message}` result, or a thrown error. */
  datatype CommandResult = Resolved(success: bool, message: string) | Threw(reason: string)

  predicate Succeeded(r: CommandResult) {
    r.Resolved? && r.success
  }

  /** A command sent to the data service. */
  datatype Command = SaveTopics(drafts: seq<TopicDraft>) | UpdateTopic(id: int, topic: Topic) | SoftDeleteTopic(id: int)

  /** The edit buffer's topic, when there is one and its name is not blank. */
  function Sendable(editing: Option<Topic>): (r: Option<Topic>)
    ensures r.Some? <==> editing.Some? && exists i :: 0 <= i < |editing.value.name| && !IsWhiteSpace(editing.value.name[i])
    ensures r.Some? ==> r == editing
  {
    if editing.Some? && Trim(editing.value.name) != [] then editing else None
  }

  /** What a handler reports: nothing (no command issued), the success notice, or the error notice. */
  datatype Ack = NotIssued | Acknowledged | Rejected

  /** All of the page's state at once. */
  datatype PageView = PageView(
    insights: seq<Insight>, topics: seq<Topic>, loading: bool, error: Option<string>, searchTerm: string,
    showAddTopicDialog: bool, showEditTopicDialog: bool, newTopic: TopicDraft, editingTopic: Option<Topic>,
    openItem: Option<Insight>, isTopicsExpanded: bool, issued: seq<Command>)

  class InvestmentPage {
    var insights: seq<Insight>
    var topics: seq<Topic>
    var loading: bool
    var error: Option<string>
    var searchTerm: string
    var showAddTopicDialog: bool
    var showEditTopicDialog: bool
    var newTopic: TopicDraft
    var editingTopic: Option<Topic>
    var openItem: Option<Insight>
    var isTopicsExpanded: bool
    /** The commands sent to the data service so far, oldest first. */
    var issued: seq<Command>

    function View(): PageView
      reads this
    {
      PageView(insights, topics, loading, error, searchTerm, showAddTopicDialog, showEditTopicDialog,
               newTopic, editingTopic, openItem, isTopicsExpanded, issued)
    }

    /** The edit dialog is only ever open over a topic being edited. */
    ghost predicate Valid()
      reads this
    {
      showEditTopicDialog ==> editingTopic.Some?
    }

    /** The insights the grid shows. */
    function FilteredInsights(): seq<Insight>
      reads this
    {
      FilterInsights(insights, searchTerm)
    }

    /** The page as first rendered: empty lists, loading, no dialog open. */
    constructor ()
      ensures Valid()
      ensures View() == PageView([], [], true, None, "", false, false, EmptyDraft, None, None, false, [])
    {
      insights, topics, loading, error, searchTerm := [], [], true, None, "";
      showAddTopicDialog, showEditTopicDialog := false, false;
      newTopic, editingTopic, openItem, isTopicsExpanded := EmptyDraft, None, None, false;
      issued := [];
    }

    // ---- Pushes from the data service ----

    /** An insights push replaces the list wholesale, ends loading and clears the error. */
    method HandleInsightsUpdate(data: seq<Insight>)
      requires Valid()
      modifies this
      ensures Valid()
      ensures View() == old(View()).(insights := data, loading := false, error := None)
    {
      insights := data;
      loading := false;
      error := None;
    }

    /** A topics push replaces the list wholesale. */
    method HandleTopicsUpdate(data: seq<Topic>)
      requires Valid()
      modifies this
      ensures Valid()
      ensures View() == old(View()).(topics := data)
    {
      topics := data;
    }

    // ---- Topic commands ----

    /**
     * Saves the draft when its name is not blank. On success the draft is
     * cleared and the add dialog closes; on failure nothing changes. The topic
     * list is left for the next push to update.
     */
    method HandleAddTopic(result: CommandResult) returns (ack: Ack)
      requires Valid()
      modifies this
      ensures Valid()
      ensures Trim(old(newTopic).name) == [] ==> ack == NotIssued && View() == old(View())
      ensures Trim(old(newTopic).name) != [] && Succeeded(result) ==>
        && ack == Acknowledged
        && View() == old(View()).(newTopic := EmptyDraft, showAddTopicDialog := false,
                                  issued := old(issued) + [SaveTopics([old(newTopic)])])
      ensures Trim(old(newTopic).name) != [] && !Succeeded(result) ==>
        ack == Rejected && View() == old(View()).(issued := old(issued) + [SaveTopics([old(newTopic)])])
    {
      if Trim(newTopic.name) != [] {
        issued := issued + [SaveTopics([newTopic])];
        if result.Resolved? && result.success {
          newTopic := EmptyDraft;
          showAddTopicDialog := false;
          ack := Acknowledged;
        } else {
          ack := Rejected;
        }
      } else {
        ack := NotIssued;
      }
    }

    /**
     * Sends the edited topic when there is one and its name is not blank. On
     * success only the edit dialog closes: the buffer and the topic list stay
     * as they were until the next push.
     */
    method HandleUpdateTopic(result: CommandResult) returns (ack: Ack)
      requires Valid()
      modifies this
      ensures Valid()
      ensures Sendable(old(editingTopic)).None? ==> ack == NotIssued && View() == old(View())
      ensures Sendable(old(editingTopic)).Some? && Succeeded(result) ==>
        var t := Sendable(old(editingTopic)).value;
        ack == Acknowledged &&
        View() == old(View()).(showEditTopicDialog := false, issued := old(issued) + [UpdateTopic(t.id, t)])
      ensures Sendable(old(editingTopic)).Some? && !Succeeded(result) ==>
        var t := Sendable(old(editingTopic)).value;
        ack == Rejected && View() == old(View()).(issued := old(issued) + [UpdateTopic(t.id, t)])
    {
      var pending := Sendable(editingTopic);
      if pending.Some? {
        var t := pending.value;
        issued := issued + [UpdateTopic(t.id, t)];
        if result.Resolved? && result.success {
          showEditTopicDialog := false;
          ack := Acknowledged;
        } else {
          ack := Rejected;
        }
      } else {
        ack := NotIssued;
      }
    }

    /** Soft-deletes a topic at once; the list changes only with the next push. */
    method HandleDeleteTopic(id: int, result: CommandResult) returns (ack: Ack)
      requires Valid()
      modifies this
      ensures Valid()
      ensures ack == (if Succeeded(result) then Acknowledged else Rejected)
      ensures View() == old(View()).(issued := old(issued) + [SoftDeleteTopic(id)])
    {
      issued := issued + [SoftDeleteTopic(id)];
      if result.Resolved? && result.success {
        ack := Acknowledged;
      } else {
        ack := Rejected;
      }
    }

    // ---- Dialogs and form fields ----

    method SetSearchTerm(term: string)
      requires Valid()
      modifies this
      ensures Valid()
      ensures View() == old(View()).(searchTerm := term)
    {
      searchTerm := term;
    }

    /** "Add Topic" opens the add dialog; the draft keeps whatever it held. */
    method OpenAddTopicDialog()
      requires Valid()
      modifies this
      ensures Valid()
      ensures View() == old(View()).(showAddTopicDialog := true)
    {
      showAddTopicDialog := true;
    }

    /** Dismissing the add dialog closes it; the draft keeps whatever it held. */
    method DismissAddTopicDialog()
      requires Valid()
      modifies this
      ensures Valid()
      ensures View() == old(View()).(showAddTopicDialog := false)
    {
      showAddTopicDialog := false;
    }

    method SetNewTopicName(name: string)
      requires Valid()
      modifies this
      ensures Valid()
      ensures View() == old(View()).(newTopic := old(newTopic).(name := name))
    {
      newTopic := newTopic.(name := name);
    }

    method SetNewTopicExplaination(explaination: string)
      requires Valid()
      modifies this
      ensures Valid()
      ensures View() == old(View()).(newTopic := old(newTopic).(explaination := explaination))
    {
      newTopic := newTopic.(explaination := explaination);
    }

    /** Choosing edit on a topic loads it into the edit buffer and opens the edit dialog. */
    method EditTopic(topic: Topic)
      requires Valid()
      modifies this
      ensures Valid()
      ensures View() == old(View()).(editingTopic := Some(topic), showEditTopicDialog := true)
    {
      editingTopic := Some(topic);
      showEditTopicDialog := true;
    }

    /** Dismissing the edit dialog closes it; the buffer keeps whatever it held. */
    method DismissEditTopicDialog()
      requires Valid()
      modifies this
      ensures Valid()
      ensures View() == old(View()).(showEditTopicDialog := false)
    {
      showEditTopicDialog := false;
    }

    /** Typing in the edit dialog changes the buffer's name, if there is a buffer. */
    method SetEditingTopicName(name: string)
      requires Valid()
      modifies this
      ensures Valid()
      ensures View() == old(View()).(editingTopic :=
        if old(editingTopic).Some? then Some(old(editingTopic).value.(name := name)) else None)
    {
      if editingTopic.Some? {
        editingTopic := Some(editingTopic.value.(name := name));
      }
    }

    method SetEditingTopicExplaination(explaination: string)
      requires Valid()
      modifies this
      ensures Valid()
      ensures View() == old(View()).(editingTopic :=
        if old(editingTopic).Some? then Some(old(editingTopic).value.(explaination := explaination)) else None)
    {
      if editingTopic.Some? {
        editingTopic := Some(editingTopic.value.(explaination := explaination));
      }
    }

    /** "Watch Video" opens the video dialog on that insight. */
    method WatchVideo(insight: Insight)
      requires Valid()
      modifies this
      ensures Valid()
      ensures View() == old(View()).(openItem := Some(insight))
    {
      openItem := Some(insight);
    }

    /** Closing the video dialog (its Close button or dismissing it) clears the selected insight. */
    method CloseWatchDialog()
      requires Valid()
      modifies this
      ensures Valid()
      ensures View() == old(View()).(openItem := None)
    {
      openItem := None;
    }

    method SetTopicsExpanded(open: bool)
      requires Valid()
      modifies this
      ensures Valid()
      ensures View() == old(View()).(isTopicsExpanded := open)
    {
      isTopicsExpanded := open;
    }
  }

  /**
   * A topic renamed through the edit dialog shows its new name only once the
   * service pushes the updated list: the successful command alone leaves the
   * list as it was.
   */
  method RenameScenario() {
    var page := new InvestmentPage();
    var ai := Topic(1, "AI", "");
    page.HandleTopicsUpdate([ai]);
    page.EditTopic(ai);
    page.SetEditingTopicName("AI & ML");
    assert Trim("AI & ML") != [];
    var ack := page.HandleUpdateTopic(Resolved(true, ""));
    assert ack == Acknowledged && !page.showEditTopicDialog;
    assert page.issued == [UpdateTopic(1, Topic(1, "AI & ML", ""))];
    assert page.topics == [ai];
    page.HandleTopicsUpdate([Topic(1, "AI & ML", "")]);
    assert page.topics[0].name == "AI & ML";
  }
}

/**
 * The careers page: job cards that can be picked, and an application form
 * whose "position" select mirrors the picked job; sending the form replaces
 * it with a thank-you panel.
 */
module TrabalhePage {
  import opened Common

  /** One open position. */
  datatype Job = Job(id: nat, title: string, location: string, contract: string, description: string)

  const CashierTitle := "Operador de Caixa"
  const StockerTitle := "Repositor"
  const ButcherTitle := "Açougueiro"
  const CleanerTitle := "Auxiliar de Limpeza"

  const Jobs: seq<Job> := [
    Job(1, CashierTitle, "Bom Jardim", "CLT - Tempo Integral",
      "Atendimento ao cliente, registro de produtos, recebimento de pagamentos."),
    Job(2, StockerTitle, "Bonsucesso", "CLT - Tempo Integral",
      "Organização e reposição de produtos nas gôndolas, verificação de validade."),
    Job(3, ButcherTitle, "Bom Jardim", "CLT - Tempo Integral",
      "Corte e preparação de carnes, atendimento personalizado ao cliente."),
    Job(4, CleanerTitle, "Todas as Lojas", "CLT - Tempo Integral",
      "Manutenção da limpeza e organização do ambiente da loja.")
  ]

  /** The value of the select's last option, "Outras Oportunidades". */
  const OtherJobs := "Outras"

  /** The job titles, in card order. */
  function JobTitles(): (titles: seq<string>)
    ensures |titles| == |Jobs|
    ensures forall i :: 0 <= i < |Jobs| ==> titles[i] == Jobs[i].title
  {
    seq(|Jobs|, i requires 0 <= i < |Jobs| => Jobs[i].title)
  }

  /** The values of the select's options: the empty placeholder, one per job, and "Outras". */
  function SelectOptions(): (options: seq<string>)
    ensures |options| == |Jobs| + 2
    ensures options[0] == "" && options[|Jobs| + 1] == OtherJobs
    ensures forall i :: 0 <= i < |Jobs| ==> options[i + 1] == Jobs[i].title
  {
    [""] + JobTitles() + [OtherJobs]
  }

  /** No two options share a value; in particular the job titles are distinct. */
  lemma OptionsDistinct()
    ensures Distinct(SelectOptions())
    ensures Distinct(JobTitles())
  {
    JobTitlesListed();
    SelectOptionsListed();
    ListedOptionsDistinct();
  }

  /** The options, in order. */
  lemma SelectOptionsListed()
    ensures SelectOptions() == ["", CashierTitle, StockerTitle, ButcherTitle, CleanerTitle, OtherJobs]
  {
    JobTitlesListed();
  }

  /** The titles, one per card. */
  lemma JobTitlesListed()
    ensures JobTitles() == [CashierTitle, StockerTitle, ButcherTitle, CleanerTitle]
  {
  }

  /** The six option values are pairwise different, and so are the four titles. */
  lemma ListedOptionsDistinct()
    ensures Distinct(["", CashierTitle, StockerTitle, ButcherTitle, CleanerTitle, OtherJobs])
    ensures Distinct([CashierTitle, StockerTitle, ButcherTitle, CleanerTitle])
  {
    var options := ["", CashierTitle, StockerTitle, ButcherTitle, CleanerTitle, OtherJobs];
    var titles := [CashierTitle, StockerTitle, ButcherTitle, CleanerTitle];
    // The six values have six different lengths.
    var lengths := [0, 17, 9, 10, 19, 6];
    assert forall k :: 0 <= k < 6 ==> |options[k]| == lengths[k];
    assert forall i, j :: 0 <= i < j < 6 ==> lengths[i] != lengths[j];
    assert forall k :: 0 <= k < 4 ==> titles[k] == options[k + 1];
  }

  /** `selectedJob === job.title`: whether a card gets the highlighted border. */
  predicate Highlighted(selectedJob: Option<string>, job: Job) {
    selectedJob == Some(job.title)
  }

  /** Since the titles are distinct, at most one card is highlighted. */
  lemma AtMostOneHighlighted(selectedJob: Option<string>, i: nat, j: nat)
    requires i < |Jobs| && j < |Jobs|
    requires Highlighted(selectedJob, Jobs[i]) && Highlighted(selectedJob, Jobs[j])
    ensures i == j
  {
    OptionsDistinct();
    assert JobTitles()[i] == JobTitles()[j];
  }

  /** `selectedJob || ""`: the value shown by the select; `null` and "" both show the placeholder. */
  function SelectValue(selectedJob: Option<string>): (v: string)
    ensures selectedJob.None? ==> v == ""
    ensures selectedJob.Some? ==> v == selectedJob.value
  {
    if selectedJob.Some? && selectedJob.value != "" then selectedJob.value else ""
  }

  /** A selection that came from a card or from the select always shows as one of the options. */
  lemma SelectValueIsOption(selectedJob: Option<string>)
    requires selectedJob.None? || selectedJob.value in SelectOptions()
    ensures SelectValue(selectedJob) in SelectOptions()
  {
    assert SelectOptions()[0] == "";
  }

  /** The careers page's React state. */
  class CareersForm {
    var formSubmitted: bool
    var selectedJob: Option<string>

    /** The selection is always empty or the value of one of the select's options. */
    predicate Valid()
      reads this
    {
      selectedJob.None? || selectedJob.value in SelectOptions()
    }

    /** The form is rendered exactly until it has been sent. */
    function FormShown(): bool
      reads this
    {
      !formSubmitted
    }

    /** The form's heading. */
    function Heading(): string
      reads this
    {
      if formSubmitted then "Candidatura Enviada!" else "Envie sua Candidatura"
    }

    /** Initial state: the form is shown and no job is picked. */
    constructor ()
      ensures Valid() && FormShown()
      ensures !formSubmitted && selectedJob == None
      ensures SelectValue(selectedJob) == ""
      ensures forall job :: job in Jobs ==> !Highlighted(selectedJob, job)
    {
      formSubmitted := false;
      selectedJob := None;
    }

    /** `handleSubmit`: the default navigation is suppressed and the form is marked sent. */
    method HandleSubmit()
      modifies this
      ensures formSubmitted && !FormShown()
      ensures selectedJob == old(selectedJob)
    {
      formSubmitted := true;
    }

    /**
     * Pressing "Enviar Candidatura". The browser runs the handler only when
     * every `required` field is filled: the text inputs (`inputsValid`, which
     * the model does not see) and the select, whose placeholder "" does not count.
     */
    method PressSend(inputsValid: bool)
      requires Valid() && FormShown()
      modifies this
      ensures Valid() && selectedJob == old(selectedJob)
      ensures formSubmitted <==> inputsValid && SelectValue(selectedJob) != ""
    {
      if inputsValid && SelectValue(selectedJob) != "" {
        HandleSubmit();
      }
    }

    /** "Enviar Nova Candidatura": the form comes back with the same job picked. */
    method StartNewApplication()
      requires Valid() && formSubmitted
      modifies this
      ensures Valid() && FormShown()
      ensures selectedJob == old(selectedJob)
    {
      formSubmitted := false;
    }

    /** A click on a job card, or on its "Candidatar-se" button: that job is picked. */
    method PickJob(job: Job)
      requires Valid() && job in Jobs
      modifies this
      ensures Valid() && formSubmitted == old(formSubmitted)
      ensures selectedJob == Some(job.title)
      ensures forall other :: other in Jobs ==> (Highlighted(selectedJob, other) <==> other == job)
      ensures SelectValue(selectedJob) == job.title
    {
      selectedJob := Some(job.title);
      forall other | other in Jobs && Highlighted(selectedJob, other)
        ensures other == job
      {
        var i :| 0 <= i < |Jobs| && Jobs[i] == other;
        var j :| 0 <= j < |Jobs| && Jobs[j] == job;
        AtMostOneHighlighted(selectedJob, i, j);
      }
      assert forall i :: 0 <= i < |Jobs| ==> Jobs[i].title in SelectOptions() by {
        forall i | 0 <= i < |Jobs| ensures Jobs[i].title in SelectOptions() {
          assert SelectOptions()[i + 1] == Jobs[i].title;
        }
      }
    }

    /** The select's `onChange`: the chosen option's value becomes the selection. */
    method ChangeSelect(value: string)
      requires Valid() && FormShown() && value in SelectOptions()
      modifies this
      ensures Valid() && FormShown()
      ensures selectedJob == Some(value) && SelectValue(selectedJob) == value
    {
      selectedJob := Some(value);
    }
  }
}

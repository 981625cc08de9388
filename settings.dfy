/**
  The settings object of one batch shake-flask experiment (`myExp`). The
  page creates it when the batch section opens and then assigns its fields
  one after another from the form: the temperature list, the carbon source
  and, when the simulation runs, the path of the result file.

  The settings class belongs to the simulation library; its defaults are
  not part of this model, so a field the page has not assigned is `None`.
*/
module Settings {
  import opened Wrappers
  import Temperatures
  import CarbonSource
  import ResultFile
  import Text
  import Session

  class ExperimentSettings {
    var experimentType: Session.FermentationType
    var hostName: Session.Value
    var temperature: Option<seq<int>>
    var carbonId: Option<string>
    var carbonName: Option<string>
    var results: Option<string>

    /** `ExperimentSettings()` followed by the type and host assignments. */
    constructor (organism: Session.Value)
      ensures experimentType == Session.Batch && hostName == organism
      ensures temperature == None && carbonId == None && carbonName == None && results == None
    {
      experimentType := Session.Batch;
      hostName := organism;
      temperature := None;
      carbonId := None;
      carbonName := None;
      results := None;
    }

    /** The temperature text box: the whole parsed list is stored, or, when
        some piece is not an integer, an error is reported and the field
        keeps its previous value. */
    method SetTemperatures(text: string) returns (error: bool)
      modifies this`temperature
      ensures error <==> Temperatures.ParseTemperatures(text).Failure?
      ensures !error ==> temperature == Some(Temperatures.ParseTemperatures(text).value)
      ensures error ==> temperature == old(temperature)
    {
      match Temperatures.ParseTemperatures(text)
      case Success(temps) =>
        temperature := Some(temps);
        error := false;
      case Failure(_) =>
        error := true;
    }

    /** The exchange lookup for the selected metabolite: the first exchange
        reaction whose text mentions the metabolite's id becomes the carbon
        source; when there is none a warning is issued and neither field
        changes. */
    method SelectCarbonSource(selected: CarbonSource.Metabolite, exchanges: seq<CarbonSource.Reaction>)
      returns (warning: bool)
      modifies this`carbonId, this`carbonName
      ensures warning <==> forall k :: 0 <= k < |exchanges| ==> !Text.Contains(exchanges[k].reaction, selected.id)
      ensures warning ==> carbonId == old(carbonId) && carbonName == old(carbonName)
      ensures !warning ==> carbonName == Some(selected.name)
      ensures !warning ==> exists k :: CarbonSource.FirstMention(exchanges, selected.id, k) && carbonId == Some(exchanges[k].id)
    {
      var found := CarbonSource.ExchangesFor(exchanges, selected.id);
      CarbonSource.FirstExchange(exchanges, selected.id);
      if found == [] {
        warning := true;
      } else {
        carbonId := Some(found[0].id);
        carbonName := Some(selected.name);
        warning := false;
      }
    }

    /** The path of the spreadsheet written by a run. */
    method SetResultsPath(date: string, organism: string, odText: string)
      modifies this`results
      ensures results == Some(ResultFile.ResultFileName(date, organism, odText))
    {
      results := Some(ResultFile.ResultFileName(date, organism, odText));
    }
  }

  /** The experiment section of the page: when it shows the batch form, a
      fresh settings object for the stored organism; otherwise none. */
  method OpenExperimentSection(session: Session.SessionState, sel: Session.FermentationType)
    returns (section: Session.Section, settings: ExperimentSettings?)
    requires session.Valid()
    ensures section == Session.BatchView(session.store, sel)
    ensures settings != null <==> section == Session.BatchForm
    ensures settings != null ==> fresh(settings) && settings.hostName == session.store[Session.OrganismKey]
    ensures settings != null ==> settings.experimentType == Session.Batch
    ensures settings != null ==> settings.temperature == None && settings.carbonId == None
    ensures settings != null ==> settings.carbonName == None && settings.results == None
  {
    section := session.ExperimentSection(sel);
    if section == Session.BatchForm {
      settings := new ExperimentSettings(session.store[Session.OrganismKey]);
    } else {
      settings := null;
    }
  }
}

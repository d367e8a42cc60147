/** The `campaigns` table, reduced to the columns the modelled operations
    read or write. Status is free text in the table (the update route may
    store any string); the values the code writes are named constants. */
module CampaignStore {
  import opened Wrappers

  const DRAFT: string := "draft"
  const STAGED: string := "staged"
  const SCHEDULED: string := "scheduled"
  const SENDING: string := "sending"
  const COMPLETED: string := "completed"
  const PAUSED: string := "paused"

  datatype Campaign = Campaign(
    name: string,
    sender: Option<string>,
    status: string,
    totalRecipients: int,
    subjectContent: string)

  class CampaignTable {
    var campaigns: map<string, Campaign>

    constructor (initial: map<string, Campaign>)
      ensures campaigns == initial
    {
      campaigns := initial;
    }
  }
}

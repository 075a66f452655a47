/**
 * The request body the mobile app's `createConversation` posts to the
 * `/conversations` endpoint.
 */
module MobileApi {
  datatype ConversationPayload = ConversationPayload(
    patientId: string,
    familyMemberId: string,
    summary: string,
    topics: seq<string>)
}

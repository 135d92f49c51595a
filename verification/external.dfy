/** Abstract results of the calls the dispatcher makes into code outside this model:
    the database, the HTML template engine and the SMTP client. */
module External {

  /** `db.Select(...).Where(...).Limit(5).Find(&items)`: an error, or the number of
      rows the WHERE clause matches before the limit is applied. */
  datatype Selection = SelectionFailed | Matched(rows: nat)

  /** `template.ParseFiles` then `t.Execute`. */
  datatype Rendering = TemplateParseFailed | TemplateExecuteFailed | Rendered

  /** `smtp.SendMail`. */
  datatype Delivery = SendFailed | Sent

  /** `db.Save(subscription)`. */
  datatype Persistence = SaveFailed | Saved
}
